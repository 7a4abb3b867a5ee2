/** The identity slugs both sides key everything by: two checks, one set of names. */
module Slugs {
  import opened Text

  predicate Alnum(c: char) {
    'a' <= c <= 'z' || '0' <= c <= '9'
  }

  predicate AllAlnum(s: string) {
    forall i :: 0 <= i < |s| ==> Alnum(s[i])
  }

  /** The controller's check: every hyphen-separated segment is non-empty and alphanumeric. */
  predicate IsSlug(s: string) {
    s != "" && AllSegments(Split(s, '-'))
  }

  predicate IsSegment(seg: string) {
    seg != "" && AllAlnum(seg)
  }

  predicate AllSegments(parts: seq<string>) {
    forall seg :: seg in parts ==> IsSegment(seg)
  }

  /** The platform's pattern `^[a-z0-9]+(-[a-z0-9]+)*$` as the automaton it denotes, inside a segment or before one. */
  predicate Matches(s: string, inside: bool) {
    if s == "" then inside
    else if Alnum(s[0]) then Matches(s[1..], true)
    else s[0] == '-' && inside && Matches(s[1..], false)
  }

  lemma {:induction false} MatchesSegment(seg: string, rest: string, inside: bool)
    requires '-' !in seg
    ensures Matches(seg + rest, inside) <==> AllAlnum(seg) && Matches(rest, inside || seg != "")
  {
    if seg == "" {
      assert seg + rest == rest;
    } else {
      assert (seg + rest)[1..] == seg[1..] + rest;
      MatchesSegment(seg[1..], rest, true);
    }
  }

  lemma LastSegment(seg: string)
    requires '-' !in seg
    ensures Matches(seg, false) <==> IsSegment(seg)
  {
    MatchesSegment(seg, "", false);
    assert seg + "" == seg;
  }

  lemma FirstSegment(seg: string, rest: string)
    requires '-' !in seg
    ensures Matches(seg + ("-" + rest), false) <==> IsSegment(seg) && Matches(rest, false)
  {
    MatchesSegment(seg, "-" + rest, false);
    assert ("-" + rest)[1..] == rest;
  }

  lemma AllSegmentsCons(seg: string, parts: seq<string>)
    ensures AllSegments([seg] + parts) <==> IsSegment(seg) && AllSegments(parts)
  {
    hide IsSegment;
    assert seg in [seg] + parts;
    assert forall p :: p in [seg] + parts <==> p == seg || p in parts;
  }

  lemma {:induction false} SegmentsMatch(s: string)
    ensures Matches(s, false) <==> AllSegments(Split(s, '-'))
    decreases |s|
  {
    hide Matches, IsSegment, AllSegments, Split;
    var i := FirstIndex(s, '-');
    if i == |s| {
      LastSegment(s);
      OnePiece(s);
    } else {
      SplitCons(s, '-');
      var seg, rest := s[..i], s[i + 1..];
      assert s == seg + ("-" + rest);
      FirstSegment(seg, rest);
      SegmentsMatch(rest);
      AllSegmentsCons(seg, Split(rest, '-'));
    }
  }

  lemma OnePiece(s: string)
    requires FirstIndex(s, '-') == |s|
    ensures AllSegments(Split(s, '-')) <==> IsSegment(s)
  {
    hide IsSegment;
    assert s in [s];
  }

  /** Controller and platform accept the same names, and a name so accepted is safe in a topic. */
  lemma SlugAgreement(s: string)
    ensures IsSlug(s) <==> Matches(s, false)
    ensures IsSlug(s) ==> s != "" && '/' !in s
  {
    SegmentsMatch(s);
    if IsSlug(s) && '/' in s {
      NoSlash(s, false);
    }
  }

  lemma {:induction false} NoSlash(s: string, inside: bool)
    requires Matches(s, inside)
    ensures '/' !in s
  {
    if s != "" {
      NoSlash(s[1..], Alnum(s[0]));
      assert s == [s[0]] + s[1..];
    }
  }
}
