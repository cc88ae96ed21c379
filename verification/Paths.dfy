/** Payload paths: the grammar `^\$\.[^.]+(\.[^.]+)*$` a rule key and an inc path must
    match, and the dot split the fold resolves them with. */
module Paths {
  import opened Basics
  import opened Text

  /** `[^.]+(\.[^.]+)*` over the whole of s. */
  predicate MatchesSegments(s: string)
    decreases |s|
  {
    var i := FirstOf(s, '.');
    i > 0 && (i == |s| || MatchesSegments(s[i + 1..]))
  }

  predicate IsPayloadPath(s: string) { HasPrefix(s, "$.") && MatchesSegments(s[2..]) }

  predicate IsSegment(s: string) { s != "" && '.' !in s }

  predicate AllSegments(segments: seq<string>) { forall x :: x in segments ==> IsSegment(x) }

  /** The text of a path after its "$." root. */
  function AfterRoot(path: string): string { if |path| < 2 then "" else path[2..] }

  function Segments(path: string): seq<string> { Split(AfterRoot(path), '.') }

  lemma AllSegmentsCons(head: string, rest: seq<string>)
    ensures AllSegments([head] + rest) <==> IsSegment(head) && AllSegments(rest)
  {
    assert ([head] + rest)[0] == head;
    assert forall x :: x in rest ==> x in [head] + rest;
  }

  lemma {:induction false} SplitSegments(s: string)
    ensures AllSegments(Split(s, '.')) <==> MatchesSegments(s)
    decreases |s|
  {
    var i := FirstOf(s, '.');
    if i < |s| {
      SplitSegments(s[i + 1..]);
      AllSegmentsCons(s[..i], Split(s[i + 1..], '.'));
    } else {
      AllSegmentsCons(s, []);
      assert [s] + [] == [s];
    }
  }

  /** A string is a payload path exactly when it prints a non-empty list of non-empty
      dot-free segments, and splitting it gives that list back. */
  lemma PathGrammar(s: string)
    ensures IsPayloadPath(s) <==>
            exists segments: seq<string> :: |segments| > 0 && AllSegments(segments) && s == "$." + Join(segments, '.')
    ensures forall segments: seq<string> :: |segments| > 0 && AllSegments(segments) && s == "$." + Join(segments, '.')
              ==> Segments(s) == segments
  {
    forall segments: seq<string> | |segments| > 0 && AllSegments(segments) && s == "$." + Join(segments, '.')
      ensures IsPayloadPath(s) && Segments(s) == segments
    {
      assert forall i :: 0 <= i < |segments| ==> segments[i] in segments;
      assert s[2..] == Join(segments, '.');
      SplitJoin(segments, '.');
      SplitSegments(s[2..]);
    }
    if IsPayloadPath(s) {
      SplitSegments(s[2..]);
      JoinSplit(s[2..], '.');
      assert s == "$." + Join(Split(s[2..], '.'), '.');
    }
  }
}
