/** parsers/cityUtils.ts: `cleanCityCandidate` finds a known city inside a
    noisy phrase ("из города Минск"), looking at comma/semicolon segments,
    two-word windows and single words. */
module CityUtils {
  import opened Wrappers
  import opened Text

  predicate IsSegmentSep(c: char) {
    c == ',' || c == ';'
  }

  /** `candidate.split(/[,;]+/).map(s => s.trim())`. */
  function Segments(candidate: string): (segs: seq<string>)
    ensures |segs| >= 1
  {
    var raw := SplitRuns(candidate, IsSegmentSep);
    seq(|raw|, k requires 0 <= k < |raw| => Trim(raw[k]))
  }

  /** `cand.split(/\s+/)`. */
  function Words(seg: string): seq<string> {
    SplitRuns(seg, IsSpace)
  }

  /** `words.slice(i, i + 2).join(' ')`: two words, or one at the end. */
  function Window(words: seq<string>, i: nat): string
    requires i < |words|
  {
    Join(words[i..if i + 2 <= |words| then i + 2 else |words|], " ")
  }

  /** `citiesSet.has(s.toLowerCase())`, where the set holds the lower-cased
      city names. */
  predicate InGazetteer(cities: set<string>, s: string) {
    LowerStr(s) in cities
  }

  /** The first hit among the word positions `i..`: at each position the
      two-word window is tried before the single word. */
  function WordsHit(words: seq<string>, i: nat, cities: set<string>): (r: Option<string>)
    requires i <= |words|
    ensures r.Some? ==> InGazetteer(cities, r.value)
    decreases |words| - i
  {
    if i == |words| then None
    else if InGazetteer(cities, Window(words, i)) then Some(Window(words, i))
    else if InGazetteer(cities, words[i]) then Some(words[i])
    else WordsHit(words, i + 1, cities)
  }

  /** A whole segment is tried before any of its words. */
  function SegmentHit(seg: string, cities: set<string>): (r: Option<string>)
    ensures r.Some? ==> InGazetteer(cities, r.value)
  {
    if InGazetteer(cities, seg) then Some(seg) else WordsHit(Words(seg), 0, cities)
  }

  /** Segments are tried left to right; the first hit wins. */
  function SegmentsHit(segs: seq<string>, cities: set<string>): (r: Option<string>)
    ensures r.Some? ==> InGazetteer(cities, r.value)
    decreases |segs|
  {
    if |segs| == 0 then None
    else
      match SegmentHit(segs[0], cities)
      case Some(x) => Some(x)
      case None => SegmentsHit(segs[1..], cities)
  }

  /** What `cleanCityCandidate` returns: the capitalised hit, or ''. A
      non-empty answer is itself a known city (case-insensitively) and is
      capitalised. */
  function CleanCity(candidate: string, cities: set<string>): (r: string)
    ensures r != "" ==> InGazetteer(cities, r) && Capitalize(r) == r
  {
    match SegmentsHit(Segments(candidate), cities)
    case Some(x) =>
      LowerOfCapitalize(x);
      CapitalizeTwice(x);
      Capitalize(x)
    case None => ""
  }

  /** `cleanCityCandidate`, with its two nested loops and early returns. */
  method CleanCityCandidate(candidate: string, cities: set<string>) returns (r: string)
    ensures r == CleanCity(candidate, cities)
  {
    var candidates := Segments(candidate);
    for k := 0 to |candidates|
      invariant SegmentsHit(candidates[k..], cities) == SegmentsHit(candidates, cities)
    {
      var cand := candidates[k];
      assert candidates[k..][1..] == candidates[k + 1..];
      if LowerStr(cand) in cities {
        return Capitalize(cand);
      }
      var words := Words(cand);
      for i := 0 to |words|
        invariant WordsHit(words, i, cities) == WordsHit(words, 0, cities)
      {
        var part := Window(words, i);
        if LowerStr(part) in cities {
          return Capitalize(part);
        }
        part := words[i];
        if LowerStr(part) in cities {
          return Capitalize(part);
        }
      }
    }
    assert candidates[|candidates|..] == [];
    return "";
  }

  // ---------------------------------------------------------------------
  // What an empty answer means

  /** Nothing in the segment is a known city: not the segment, not any
      window, not any word. */
  predicate SegmentMisses(seg: string, cities: set<string>) {
    var words := Words(seg);
    !InGazetteer(cities, seg)
    && forall i :: 0 <= i < |words| ==>
         !InGazetteer(cities, Window(words, i)) && !InGazetteer(cities, words[i])
  }

  lemma {:induction false} WordsMiss(words: seq<string>, i: nat, cities: set<string>)
    requires i <= |words|
    ensures WordsHit(words, i, cities).None? <==>
      forall j :: i <= j < |words| ==>
        !InGazetteer(cities, Window(words, j)) && !InGazetteer(cities, words[j])
    decreases |words| - i
  {
    if i < |words| {
      WordsMiss(words, i + 1, cities);
    }
  }

  lemma {:induction false} SegmentsMiss(segs: seq<string>, cities: set<string>)
    ensures SegmentsHit(segs, cities).None? <==>
      forall k :: 0 <= k < |segs| ==> SegmentMisses(segs[k], cities)
    decreases |segs|
  {
    if |segs| > 0 {
      WordsMiss(Words(segs[0]), 0, cities);
      SegmentsMiss(segs[1..], cities);
      if SegmentsHit(segs, cities).None? {
        forall k | 0 <= k < |segs| ensures SegmentMisses(segs[k], cities) {
          if k > 0 { assert segs[k] == segs[1..][k - 1]; }
        }
      }
      if forall k :: 0 <= k < |segs| ==> SegmentMisses(segs[k], cities) {
        assert SegmentMisses(segs[0], cities);
        forall k | 0 <= k < |segs| - 1 ensures SegmentMisses(segs[1..][k], cities) {
          assert segs[1..][k] == segs[k + 1];
        }
      }
    }
  }

  /** With no empty name in the gazetteer, '' comes back exactly when no
      segment, two-word window or single word is a known city. */
  lemma CleanCityEmptyIffNoHit(candidate: string, cities: set<string>)
    requires "" !in cities
    ensures CleanCity(candidate, cities) == "" <==>
      forall k :: 0 <= k < |Segments(candidate)| ==> SegmentMisses(Segments(candidate)[k], cities)
  {
    SegmentsMiss(Segments(candidate), cities);
  }

  /** The leftmost segment that holds a city decides the answer, whatever
      the later segments hold. */
  lemma {:induction false} FirstSegmentWins(segs: seq<string>, k: nat, cities: set<string>)
    requires k < |segs|
    requires forall j :: 0 <= j < k ==> SegmentHit(segs[j], cities).None?
    requires SegmentHit(segs[k], cities).Some?
    ensures SegmentsHit(segs, cities) == SegmentHit(segs[k], cities)
    decreases k
  {
    if k > 0 {
      assert SegmentHit(segs[0], cities).None?;
      forall j | 0 <= j < k - 1 ensures SegmentHit(segs[1..][j], cities).None? {
        assert segs[1..][j] == segs[j + 1];
      }
      FirstSegmentWins(segs[1..], k - 1, cities);
    }
  }

  /** Within a segment, the leftmost word position with a hit decides, and
      there the two-word window beats the single word. */
  lemma {:induction false} FirstWordWins(words: seq<string>, i: nat, k: nat, cities: set<string>)
    requires i <= k < |words|
    requires forall j :: i <= j < k ==>
      !InGazetteer(cities, Window(words, j)) && !InGazetteer(cities, words[j])
    requires InGazetteer(cities, Window(words, k)) || InGazetteer(cities, words[k])
    ensures WordsHit(words, i, cities) ==
      Some(if InGazetteer(cities, Window(words, k)) then Window(words, k) else words[k])
    decreases k - i
  {
    if i < k {
      FirstWordWins(words, i + 1, k, cities);
    }
  }
}
