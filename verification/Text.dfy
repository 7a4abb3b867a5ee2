/** Splitting a string at a separator and joining it again, as the topic and schedule codecs do. */
module Text {

  datatype Option<+T> = None | Some(value: T) {
    function GetOr(default: T): T {
      if Some? then value else default
    }
  }

  function IndexFrom(s: string, c: char, from: nat): (i: nat)
    requires from <= |s|
    ensures from <= i <= |s|
    ensures forall k :: from <= k < i ==> s[k] != c
    ensures i < |s| ==> s[i] == c
    decreases |s| - from
  {
    if from == |s| || s[from] == c then from else IndexFrom(s, c, from + 1)
  }

  /** Position of the first `c` in `s`, or `|s|` when there is none. */
  function FirstIndex(s: string, c: char): nat {
    IndexFrom(s, c, 0)
  }

  /** All pieces between separators; a string without separator is one piece. */
  function Split(s: string, c: char): (parts: seq<string>)
    ensures |parts| >= 1
    decreases |s|
  {
    var i := FirstIndex(s, c);
    if i == |s| then [s] else [s[..i]] + Split(s[i + 1..], c)
  }

  function Join(parts: seq<string>, c: char): string
    requires |parts| >= 1
  {
    if |parts| == 1 then parts[0] else parts[0] + [c] + Join(parts[1..], c)
  }

  lemma JoinCons(head: string, parts: seq<string>, c: char)
    requires |parts| >= 1
    ensures Join([head] + parts, c) == head + [c] + Join(parts, c)
  {
    assert ([head] + parts)[1..] == parts;
  }

  lemma SplitCons(s: string, c: char)
    requires FirstIndex(s, c) < |s|
    ensures var i := FirstIndex(s, c);
            Split(s, c) == [s[..i]] + Split(s[i + 1..], c) && s == s[..i] + [c] + s[i + 1..]
  {
    var i := FirstIndex(s, c);
    assert s == s[..i] + [s[i]] + s[i + 1..];
  }

  lemma {:induction false} PiecesHaveNoSeparator(s: string, c: char)
    ensures forall p :: p in Split(s, c) ==> c !in p
    decreases |s|
  {
    var i := FirstIndex(s, c);
    if i < |s| {
      PiecesHaveNoSeparator(s[i + 1..], c);
    }
  }

  /** Joining the pieces gives the string back. */
  lemma {:induction false} JoinSplit(s: string, c: char)
    ensures Join(Split(s, c), c) == s
    decreases |s|
  {
    var i := FirstIndex(s, c);
    if i < |s| {
      var head, rest := s[..i], s[i + 1..];
      JoinSplit(rest, c);
      calc {
        Join(Split(s, c), c);
        { SplitCons(s, c); }
        Join([head] + Split(rest, c), c);
        { JoinCons(head, Split(rest, c), c); }
        head + [c] + rest;
        { SplitCons(s, c); }
        s;
      }
    }
  }

  lemma FirstIndexOfPrefix(p: string, c: char, rest: string)
    requires c !in p
    ensures FirstIndex(p + [c] + rest, c) == |p|
  {
    var s := p + [c] + rest;
    assert forall k :: 0 <= k < |p| ==> s[k] == p[k];
    assert s[|p|] == c;
  }

  lemma SplitPrefix(p: string, c: char, rest: string)
    requires c !in p
    ensures Split(p + [c] + rest, c) == [p] + Split(rest, c)
  {
    var s := p + [c] + rest;
    FirstIndexOfPrefix(p, c, rest);
    SplitCons(s, c);
    assert s[..|p|] == p && s[|p| + 1..] == rest;
  }

  /** Splitting undoes joining when no piece holds the separator. */
  lemma {:induction false} SplitJoin(parts: seq<string>, c: char)
    requires |parts| >= 1
    requires forall p :: p in parts ==> c !in p
    ensures Split(Join(parts, c), c) == parts
  {
    assert parts[0] in parts;
    if |parts| > 1 {
      SplitPrefix(parts[0], c, Join(parts[1..], c));
      SplitJoin(parts[1..], c);
    } else {
      assert parts == [parts[0]];
    }
  }

  /** A field after an edit: the value carried, else the one that was there. */
  predicate Takes<T(==)>(carried: Option<T>, was: T, now: T) {
    match carried
    case None => now == was
    case Some(v) => now == v
  }
}
