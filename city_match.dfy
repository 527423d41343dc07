/** What parseFromCity.ts and parseToCity.ts share: the preposition pattern
    `(?:kw|…)\s+([а-яa-zё\- ]+)` matched against the lower-cased message,
    and the block that turns the top fuzzy hit into a slot value or a
    candidate to confirm. */
module CityMatch {
  import opened Wrappers
  import opened Text
  import opened SlotModel
  import opened FuzzySearch
  import CityUtils

  /** The capture class `[а-яa-zё\- ]`. */
  predicate InCaptureClass(c: char) {
    ('а' <= c <= 'я') || ('a' <= c <= 'z') || c == 'ё' || c == '-' || c == ' '
  }

  /** Length of the whitespace run that starts at `q`. */
  function SpaceRun(s: string, q: nat): (n: nat)
    requires q <= |s|
    ensures q + n <= |s|
    ensures forall k :: q <= k < q + n ==> IsSpace(s[k])
    ensures q + n < |s| ==> !IsSpace(s[q + n])
    decreases |s| - q
  {
    if q < |s| && IsSpace(s[q]) then 1 + SpaceRun(s, q + 1) else 0
  }

  /** Length of the run of capture-class characters that starts at `q`. */
  function ClassRun(s: string, q: nat): (n: nat)
    requires q <= |s|
    ensures q + n <= |s|
    ensures forall k :: q <= k < q + n ==> InCaptureClass(s[k])
    ensures q + n < |s| ==> !InCaptureClass(s[q + n])
    decreases |s| - q
  {
    if q < |s| && InCaptureClass(s[q]) then 1 + ClassRun(s, q + 1) else 0
  }

  /** `\s+` has taken `j` whitespace characters after position `q`; the
      capture must start right after them. A greedy `\s+` gives back one
      character at a time until the capture can start. The space is itself
      in the class, so a capture may begin with the last given-back space. */
  function CaptureBack(s: string, q: nat, j: nat): (r: Option<string>)
    requires 1 <= j && q + j <= |s|
    ensures r.Some? ==> |r.value| >= 1 && forall k :: 0 <= k < |r.value| ==> InCaptureClass(r.value[k])
    decreases j
  {
    if q + j < |s| && InCaptureClass(s[q + j]) then Some(s[q + j .. q + j + ClassRun(s, q + j)])
    else if j == 1 then None
    else CaptureBack(s, q, j - 1)
  }

  /** `\s+([…]+)` tried at position `q`. */
  function CaptureAfter(s: string, q: nat): (r: Option<string>)
    requires q <= |s|
    ensures r.Some? ==> |r.value| >= 1
  {
    var w := SpaceRun(s, q);
    if w == 0 then None else CaptureBack(s, q, w)
  }

  /** The alternatives of `(?:k1|k2|…)`, tried in their written order at
      position `p`. */
  function AlternativesAt(s: string, p: nat, keywords: seq<string>): (r: Option<string>)
    requires p <= |s|
    ensures r.Some? ==> |r.value| >= 1
    decreases |keywords|
  {
    if |keywords| == 0 then None
    else if StartsWith(s[p..], keywords[0]) && CaptureAfter(s, p + |keywords[0]|).Some? then
      CaptureAfter(s, p + |keywords[0]|)
    else AlternativesAt(s, p, keywords[1..])
  }

  /** `s.match(re)?.[1]`: the match that starts leftmost wins. */
  function FirstCapture(s: string, keywords: seq<string>, p: nat): (r: Option<string>)
    requires p <= |s|
    ensures r.Some? ==> |r.value| >= 1
    decreases |s| - p
  {
    match AlternativesAt(s, p, keywords)
    case Some(c) => Some(c)
    case None => if p == |s| then None else FirstCapture(s, keywords, p + 1)
  }

  /** The capture group of the preposition pattern, on the lower-cased text. */
  function PrepositionCapture(message: string, keywords: seq<string>): Option<string> {
    FirstCapture(LowerStr(message), keywords, 0)
  }

  // ---------------------------------------------------------------------
  // The fuzzy-hit block

  /** A city to write into the slot, or a nearby name to ask about. */
  datatype Resolution = Commit(city: string) | Ask(candidate: string)

  /** A score of 0 commits the hit; a score below 0.3 commits it only when
      it differs from the looked-up text in case alone, and otherwise asks
      about it; any other answer leaves everything as it was. */
  function Resolve(text: string, hit: TopHit): (r: Option<Resolution>)
    ensures r.None? <==> hit.NoHit? || hit.tier == Distant
    ensures r.Some? ==> hit.Hit? && r.value.Commit? == (hit.tier == Exact || LowerStr(text) == LowerStr(hit.item))
    ensures r.Some? && r.value.Commit? ==> r.value.city == hit.item
    ensures r.Some? && r.value.Ask? ==> r.value.candidate == hit.item
  {
    match hit
    case NoHit => None
    case Hit(item, tier) =>
      match tier
      case Exact => Some(Commit(item))
      case Close => if LowerStr(text) != LowerStr(item) then Some(Ask(item)) else Some(Commit(item))
      case Distant => None
  }

  /** The keys a resolution writes: the role's slot, or the candidate and
      its type. */
  function Record(role: CityRole, res: Option<Resolution>): SlotState
  {
    match res
    case None => Empty
    case Some(Commit(c)) =>
      if role == Origin then Empty.(fromCity := Some(c)) else Empty.(toCity := Some(c))
    case Some(Ask(c)) => Empty.(cityCandidate := Some(c), cityCandidateType := Some(role))
  }

  /** The capture path of both parsers: trim and capitalise the capture,
      clean it against the gazetteer, and look up what remains. */
  function CapturePath(capture: string, role: CityRole, gaz: Gazetteer): SlotState {
    var clean := CityUtils.CleanCity(Capitalize(Trim(capture)), gaz.cities);
    if clean != "" then Record(role, Resolve(clean, gaz.search(clean))) else Empty
  }

  // ---------------------------------------------------------------------
  // A whole city name after the preposition

  /** A lower-case phrase the capture group takes whole: class characters
      only, with no space at either end. */
  predicate CityPhrase(t: string) {
    |t| > 0 && t[0] != ' ' && t[|t| - 1] != ' '
    && forall k :: 0 <= k < |t| ==> InCaptureClass(t[k])
  }

  /** When the text opens with the pattern's first keyword, one space and a
      city phrase, the capture is exactly that phrase. */
  lemma CaptureAtStart(keywords: seq<string>, t: string)
    requires |keywords| > 0
    requires CityPhrase(t)
    ensures FirstCapture(keywords[0] + " " + t, keywords, 0) == Some(t)
  {
    var kw := keywords[0];
    var s := kw + " " + t;
    var q := |kw|;
    assert s[q] == ' ' && s[q + 1..] == t;
    CaptureAfterPhrase(s, q, t);
    assert s[0..] == s && s[..|kw|] == kw;
    assert AlternativesAt(s, 0, keywords) == Some(t);
  }

  /** A single space and then a city phrase running to the end of the text:
      `\s+([…]+)` captures exactly the phrase. */
  lemma CaptureAfterPhrase(s: string, q: nat, t: string)
    requires q + 1 <= |s| && s[q] == ' ' && s[q + 1..] == t && CityPhrase(t)
    ensures CaptureAfter(s, q) == Some(t)
  {
    ClassChar(t[0]);
    assert s[q + 1] == t[0];
    assert SpaceRun(s, q + 1) == 0;
    assert SpaceRun(s, q) == 1;
    forall k | q + 1 <= k < |s| ensures InCaptureClass(s[k]) {
      assert s[k] == t[k - q - 1];
    }
    var n := ClassRun(s, q + 1);
    assert n == |t| && q + 1 + n == |s|;
    assert s[q + 1 .. q + 1 + n] == t;
    assert InCaptureClass(s[q + 1]);
    assert CaptureBack(s, q, 1) == Some(t);
  }

  /** The only whitespace in the capture class is the space itself, and
      upper-casing a class character yields no whitespace and no segment
      separator. */
  lemma ClassChar(c: char)
    requires InCaptureClass(c)
    ensures IsSpace(c) <==> c == ' '
    ensures IsSpace(Upper(c)) <==> c == ' '
    ensures !CityUtils.IsSegmentSep(c) && !CityUtils.IsSegmentSep(Upper(c))
  {
  }

  /** A city phrase that is a known city comes out of the cleaner as
      itself, capitalised. */
  lemma CleanKnownCity(t: string, cities: set<string>)
    requires CityPhrase(t)
    requires LowerStr(t) in cities
    ensures CityUtils.CleanCity(Capitalize(Trim(t)), cities) == Capitalize(t)
  {
    ClassChar(t[0]);
    ClassChar(t[|t| - 1]);
    TrimOfTrimmed(t);
    var c := Capitalize(t);
    forall k | 0 <= k < |c| ensures !CityUtils.IsSegmentSep(c[k]) {
      ClassChar(t[k]);
    }
    SplitRunsNone(c, CityUtils.IsSegmentSep);
    assert c[|c| - 1] == if |t| == 1 then Upper(t[0]) else t[|t| - 1];
    TrimOfTrimmed(c);
    assert CityUtils.Segments(c) == [Trim(c)];
    LowerOfCapitalize(t);
    CapitalizeTwice(t);
  }

  /** A message "<keyword> <phrase>" captures the phrase, lower-cased. */
  lemma PhraseCapture(keywords: seq<string>, x: string)
    requires |keywords| > 0 && LowerStr(keywords[0]) == keywords[0]
    requires CityPhrase(LowerStr(x))
    ensures PrepositionCapture(keywords[0] + " " + x, keywords) == Some(LowerStr(x))
  {
    LowerStrConcat(keywords[0] + " ", x);
    LowerStrConcat(keywords[0], " ");
    assert LowerStr(" ") == " ";
    CaptureAtStart(keywords, LowerStr(x));
  }

  /** The lookup a message "<keyword> <phrase>" leads to, on either parser's
      capture path. */
  lemma PhrasePath(keywords: seq<string>, x: string, role: CityRole, gaz: Gazetteer)
    requires |keywords| > 0 && LowerStr(keywords[0]) == keywords[0]
    requires CityPhrase(LowerStr(x)) && LowerStr(x) in gaz.cities
    ensures PrepositionCapture(keywords[0] + " " + x, keywords) == Some(LowerStr(x))
    ensures CapturePath(LowerStr(x), role, gaz) ==
      Record(role, Resolve(Capitalize(LowerStr(x)), gaz.search(Capitalize(LowerStr(x)))))
  {
    PhraseCapture(keywords, x);
    LowerStrTwice(x);
    CleanKnownCity(LowerStr(x), gaz.cities);
  }

  /** A one-word capture that is not in the city list gives the empty
      record: the cleaner finds nothing, and the capture path never reaches
      the fuzzy search. */
  lemma UnknownWordDropped(t: string, role: CityRole, gaz: Gazetteer)
    requires CityPhrase(t) && ' ' !in t
    requires LowerStr(t) !in gaz.cities
    ensures CapturePath(t, role, gaz) == Empty
  {
    ClassChar(t[0]);
    TrimOfTrimmed(t);
    var c := Capitalize(t);
    OneWord(t);
    LowerOfCapitalize(t);
    assert !CityUtils.InGazetteer(gaz.cities, c);
    assert CityUtils.WordsHit([c], 1, gaz.cities).None?;
    assert CityUtils.WordsHit([c], 0, gaz.cities).None?;
    assert CityUtils.SegmentsHit([c], gaz.cities).None?;
  }

  /** A capitalised word of the capture class is one segment of one word. */
  lemma OneWord(t: string)
    requires CityPhrase(t) && ' ' !in t
    ensures var c := Capitalize(t);
      CityUtils.Segments(c) == [c] && CityUtils.Words(c) == [c] && CityUtils.Window([c], 0) == c
  {
    var c := Capitalize(t);
    forall k | 0 <= k < |c| ensures !CityUtils.IsSegmentSep(c[k]) && !IsSpace(c[k]) {
      ClassChar(t[k]);
      assert t[k] != ' ';
    }
    SplitRunsNone(c, CityUtils.IsSegmentSep);
    SplitRunsNone(c, IsSpace);
    TrimOfTrimmed(c);
  }

  /** A text without whitespace leaves nothing to capture: `\s+` must
      follow the keyword. */
  lemma {:induction false} NoCaptureWithoutSpace(s: string, keywords: seq<string>, p: nat)
    requires p <= |s| && forall k :: 0 <= k < |s| ==> !IsSpace(s[k])
    ensures FirstCapture(s, keywords, p).None?
    decreases |s| - p
  {
    NoAlternativeWithoutSpace(s, keywords, p);
    if p < |s| {
      NoCaptureWithoutSpace(s, keywords, p + 1);
    }
  }

  lemma {:induction false} NoAlternativeWithoutSpace(s: string, keywords: seq<string>, p: nat)
    requires p <= |s| && forall k :: 0 <= k < |s| ==> !IsSpace(s[k])
    ensures AlternativesAt(s, p, keywords).None?
    decreases |keywords|
  {
    if |keywords| > 0 {
      if StartsWith(s[p..], keywords[0]) {
        assert SpaceRun(s, p + |keywords[0]|) == 0;
      }
      NoAlternativeWithoutSpace(s, keywords[1..], p);
    }
  }
}
