/** What every service module shares: `Option` stands for a value that may
    be null/undefined, `Result` for a call that either returns a value or
    throws an error; and the JavaScript string splitting that both the month
    parser and the forwarded-address parser use. */
module Common {

  datatype Option<+T> = None | Some(value: T)

  datatype Result<+T, +E> = Success(value: T) | Failure(error: E)

  /** A `process.hrtime()` reading, or the difference of two: whole
      seconds and the nanoseconds beyond them. */
  datatype HrTime = HrTime(seconds: int, nanos: int)

  /** The first `n` elements of `s` (all of them when `s` is shorter), as a
      store's `take: n` does. */
  function Take<T>(s: seq<T>, n: nat): (r: seq<T>)
    ensures |r| == if |s| <= n then |s| else n
    ensures r == s[..|r|]
  {
    if |s| <= n then s else s[..n]
  }

  // ---- String.prototype.split with a one-character separator ----

  /** The index of the first `c` in `s`, or `|s|` when there is none. */
  function IndexOf(s: string, c: char): (i: nat)
    ensures i <= |s|
    ensures i < |s| ==> s[i] == c
    ensures forall k :: 0 <= k < i ==> s[k] != c
  {
    if s == [] then 0 else if s[0] == c then 0 else 1 + IndexOf(s[1..], c)
  }

  /** `s.split(sep)`: the pieces between occurrences of `sep`. */
  function Split(s: string, sep: char): (parts: seq<string>)
    ensures |parts| >= 1
    decreases |s|
  {
    var i := IndexOf(s, sep);
    if i == |s| then [s] else [s[..i]] + Split(s[i + 1..], sep)
  }

  /** `parts.join(sep)`. */
  function Join(parts: seq<string>, sep: char): string {
    if parts == [] then []
    else if |parts| == 1 then parts[0]
    else parts[0] + [sep] + Join(parts[1..], sep)
  }

  /** Splitting loses nothing: joining the pieces gives the string back. */
  lemma {:induction false} SplitJoin(s: string, sep: char)
    ensures Join(Split(s, sep), sep) == s
    decreases |s|
  {
    var i := IndexOf(s, sep);
    if i < |s| {
      var rest := Split(s[i + 1..], sep);
      SplitJoin(s[i + 1..], sep);
      assert Split(s, sep) == [s[..i]] + rest;
      JoinAtSeparator(s, i, sep, rest);
    }
  }

  /** Joining the text before a separator with pieces that join to the text
      after it gives the whole string. */
  lemma JoinAtSeparator(s: string, i: nat, sep: char, rest: seq<string>)
    requires i < |s| && s[i] == sep
    requires rest != [] && Join(rest, sep) == s[i + 1..]
    ensures Join([s[..i]] + rest, sep) == s
  {
    assert ([s[..i]] + rest)[1..] == rest;
    assert s[..i] + [s[i]] == s[..i + 1];
  }

  /** The first piece of a split is what precedes the first separator. */
  lemma SplitFirstPiece(s: string, sep: char)
    ensures Split(s, sep)[0] == s[..IndexOf(s, sep)]
  {
  }

  /** A string without the separator splits into itself alone. */
  lemma SplitWithoutSeparator(s: string, sep: char)
    requires sep !in s
    ensures Split(s, sep) == [s]
  {
    IndexOfIs(s, sep, |s|);
  }

  /** The first piece of a string is the text before its first separator. */
  lemma SplitBeforeSeparator(head: string, sep: char, tail: string)
    requires sep !in head
    ensures Split(head + [sep] + tail, sep)[0] == head
  {
    var s := head + [sep] + tail;
    IndexOfIs(s, sep, |head|);
    assert s[..|head|] == head;
  }

  /** The contract of `IndexOf` fixes its result. */
  lemma {:induction false} IndexOfIs(s: string, c: char, i: nat)
    requires i <= |s|
    requires i < |s| ==> s[i] == c
    requires forall k :: 0 <= k < i ==> s[k] != c
    ensures IndexOf(s, c) == i
    decreases |s|
  {
    if s != [] && s[0] != c {
      IndexOfIs(s[1..], c, i - 1);
    }
  }

  /** No piece of a split contains the separator. */
  lemma {:induction false} SplitPiecesLackSeparator(s: string, sep: char)
    ensures forall k :: 0 <= k < |Split(s, sep)| ==> sep !in Split(s, sep)[k]
    decreases |s|
  {
    var i := IndexOf(s, sep);
    if i < |s| {
      SplitPiecesLackSeparator(s[i + 1..], sep);
      assert sep !in s[..i];
    }
  }
}
