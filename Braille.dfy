/**
  The braille entry layer of music21 (music21/braille/translate.py).

  It routes an object to a transcriber: a non-stream object is wrapped in a
  Measure, a Measure in a Part, a Part is transcribed segment by segment, a
  stream holding exactly two PartStaffs is transcribed bar over bar, a Score
  becomes its metadata summaries followed by its Parts, and an Opus becomes its
  Scores separated by a blank line.

  The braille rule engine (segmenter, segment and grand-segment transcription,
  renotation) lies outside this layer; it is the `Engine` parameter, a record
  of functions over the abstract type `Segment`.
 */
module BrailleTranslate {
  import opened Wrappers
  import opened Text
  import opened Seqs

  // ---------------------------------------------------------------------------
  // Data model

  /** A braille segment as the segmenter produces it; its content is not modelled. */
  type Segment

  /** A keyword argument's value: the layer forwards these and tests some for truth. */
  datatype Value =
    | BoolValue(b: bool)
    | IntValue(i: int)
    | StrValue(s: string)
    | ListValue(items: seq<Value>)
    | NoneValue

  /** Python truthiness of a keyword value. */
  predicate Truthy(v: Value)
  {
    match v
    case BoolValue(b) => b
    case IntValue(i) => i != 0
    case StrValue(s) => s != ""
    case ListValue(items) => items != []
    case NoneValue => false
  }

  /** The `**keywords` dictionary. */
  type Keywords = map<string, Value>

  /**
    The objects the layer is handed. `Single` is any object that is not a
    stream (a note, a dynamic, ...). `Metadata` holds its work ids as the
    entries of the `_workIds` dictionary in the dictionary's iteration order,
    each value rendered with `str`, or `None`. The remaining variants are the
    stream kinds, each with its direct elements; a `Part` flagged
    `isPartStaff` is a PartStaff, which is also a Part.
   */
  datatype Music21Object =
    | Single(name: string)
    | Metadata(workIds: seq<(string, Option<string>)>)
    | Measure(elements: seq<Music21Object>)
    | Part(elements: seq<Music21Object>, isPartStaff: bool)
    | TinyNotation(elements: seq<Music21Object>)
    | Score(elements: seq<Music21Object>)
    | Opus(elements: seq<Music21Object>)
    | Other(elements: seq<Music21Object>)
  {
    predicate IsStream()
    {
      !Single? && !Metadata?
    }
  }

  /** The classes `getElementsByClass` is asked for. */
  datatype ElementClass = MetadataClass | PartClass | PartStaffClass | ScoreClass

  /** `isinstance(o, cls)`: a PartStaff is a Part, a Part need not be a PartStaff. */
  predicate IsInstance(o: Music21Object, cls: ElementClass)
  {
    match cls
    case MetadataClass => o.Metadata?
    case PartClass => o.Part?
    case PartStaffClass => o.Part? && o.isPartStaff
    case ScoreClass => o.Score?
  }

  /** `stream.getElementsByClass(cls)`: the elements that are instances of `cls`, in order. */
  function ElementsOfClass(elements: seq<Music21Object>, cls: ElementClass): (r: seq<Music21Object>)
    ensures forall i :: 0 <= i < |r| ==> IsInstance(r[i], cls)
    ensures |r| <= |elements|
  {
    if elements == [] then []
    else
      var n := |elements| - 1;
      ElementsOfClass(elements[..n], cls) + (if IsInstance(elements[n], cls) then [elements[n]] else [])
  }

  lemma ElementsOfClassSnoc(elements: seq<Music21Object>, cls: ElementClass, i: nat)
    requires i < |elements|
    ensures ElementsOfClass(elements[..i + 1], cls) ==
            ElementsOfClass(elements[..i], cls) + (if IsInstance(elements[i], cls) then [elements[i]] else [])
  {
    PrefixOfPrefix(elements, i);
  }

  /** Every instance of `cls` among the elements is kept, as often as it occurs, and nothing else. */
  lemma {:induction false} ElementsOfClassCount(elements: seq<Music21Object>, cls: ElementClass, x: Music21Object)
    ensures multiset(ElementsOfClass(elements, cls))[x] == if IsInstance(x, cls) then multiset(elements)[x] else 0
  {
    if elements != [] {
      var n := |elements| - 1;
      ElementsOfClassCount(elements[..n], cls, x);
      ElementsOfClassCountStep(elements, cls, x);
      MultisetSnoc(elements, x);
    }
  }

  /** The last element adds one occurrence of `x` to the result exactly when it is `x` and is kept. */
  lemma ElementsOfClassCountStep(elements: seq<Music21Object>, cls: ElementClass, x: Music21Object)
    requires elements != []
    ensures multiset(ElementsOfClass(elements, cls))[x] ==
            multiset(ElementsOfClass(elements[..|elements| - 1], cls))[x] +
            if elements[|elements| - 1] == x && IsInstance(x, cls) then 1 else 0
  {
    var n := |elements| - 1;
    var kept := ElementsOfClass(elements[..n], cls);
    var last := if IsInstance(elements[n], cls) then [elements[n]] else [];
    assert ElementsOfClass(elements, cls) == kept + last;
    assert multiset(kept + last) == multiset(kept) + multiset(last);
  }

  /** An element is found exactly when it is in the stream and an instance of `cls`. */
  lemma {:induction false} ElementsOfClassMembership(elements: seq<Music21Object>, cls: ElementClass, x: Music21Object)
    ensures x in ElementsOfClass(elements, cls) <==> x in elements && IsInstance(x, cls)
  {
    ElementsOfClassCount(elements, cls, x);
  }

  /** The filter keeps stream order: the instances in `a` come before those in `b`. */
  lemma {:induction false} ElementsOfClassAppend(a: seq<Music21Object>, b: seq<Music21Object>, cls: ElementClass)
    ensures ElementsOfClass(a + b, cls) == ElementsOfClass(a, cls) + ElementsOfClass(b, cls)
  {
    if b == [] {
      assert a + b == a;
    } else {
      var n := |b| - 1;
      ElementsOfClassAppend(a, b[..n], cls);
      assert (a + b)[..|a + b| - 1] == a + b[..n];
      assert (a + b)[|a + b| - 1] == b[n];
    }
  }

  /** `getElementsByClass` as the stream runs it: one pass over the elements, keeping the instances. */
  method GetElementsByClass(s: Music21Object, cls: ElementClass) returns (found: seq<Music21Object>)
    requires s.IsStream()
    ensures found == ElementsOfClass(s.elements, cls)
  {
    found := [];
    var i := 0;
    while i < |s.elements|
      invariant 0 <= i <= |s.elements|
      invariant found == ElementsOfClass(s.elements[..i], cls)
    {
      ElementsOfClassSnoc(s.elements, cls, i);
      if IsInstance(s.elements[i], cls) {
        found := found + [s.elements[i]];
      }
      i := i + 1;
    }
    PrefixAll(s.elements);
  }

  /** The rule engine the layer calls but does not contain. */
  datatype Engine = Engine(
    /** `stream.makeNotation(cautionaryNotImmediateRepeat=False)` */
    makeNotation: Music21Object -> Music21Object,
    /** `segment.findSegments(part, **keywords)` */
    findSegments: (Music21Object, Keywords) -> seq<Segment>,
    /** `BrailleSegment.transcribe()` */
    transcribe: Segment -> string,
    /**
      `str(brailleSegment)` taken after `transcribe()` has run on that segment:
      the braille-English trace shown when `debug` is set
     */
    describe: Segment -> string,
    /** `BrailleGrandSegment(upper, lower).transcription` */
    grandTranscription: (Segment, Segment) -> string,
    /** `str(BrailleGrandSegment(upper, lower))` */
    grandDescribe: (Segment, Segment) -> string)

  /** `BrailleTranslateException("Stream cannot be translated to Braille.")`, and the
      AttributeError a non-stream raises when handed to `streamToBraille`. */
  datatype TranslateError = StreamCannotBeTranslated | NotAStream

  // ---------------------------------------------------------------------------
  // Keyword defaults

  /** `_translateArgs`: `inPlace` and `debug`, each `False` when the caller did not pass it. */
  function TranslateArgs(keywords: Keywords): (r: (Value, Value))
    ensures "inPlace" !in keywords ==> r.0 == BoolValue(false)
    ensures "inPlace" in keywords ==> r.0 == keywords["inPlace"]
    ensures "debug" !in keywords ==> r.1 == BoolValue(false)
    ensures "debug" in keywords ==> r.1 == keywords["debug"]
  {
    (if "inPlace" in keywords then keywords["inPlace"] else BoolValue(false),
     if "debug" in keywords then keywords["debug"] else BoolValue(false))
  }

  /**
    The keywords `measureToBraille` hands to `partToBraille`: the heading and the
    first measure number are switched off unless the caller set them, `inPlace`
    is forced to `True`, and every other keyword is passed through unchanged.
   */
  function MeasureKeywords(keywords: Keywords): (r: Keywords)
    ensures r.Keys == keywords.Keys + {"showHeading", "showFirstMeasureNumber", "inPlace"}
    ensures r["inPlace"] == BoolValue(true)
    ensures r["showHeading"] == if "showHeading" in keywords then keywords["showHeading"] else BoolValue(false)
    ensures r["showFirstMeasureNumber"] ==
              if "showFirstMeasureNumber" in keywords then keywords["showFirstMeasureNumber"] else BoolValue(false)
    ensures forall k :: k in keywords && k != "inPlace" && k != "showHeading" && k != "showFirstMeasureNumber"
                        ==> r[k] == keywords[k]
  {
    var withHeading := if "showHeading" in keywords then keywords else keywords["showHeading" := BoolValue(false)];
    var withNumber :=
      if "showFirstMeasureNumber" in withHeading then withHeading
      else withHeading["showFirstMeasureNumber" := BoolValue(false)];
    withNumber["inPlace" := BoolValue(true)]
  }

  // ---------------------------------------------------------------------------
  // Specification of each transcriber

  /** One output entry per segment, in segment order: its transcription, or its trace under `debug`. */
  function SegmentTexts(e: Engine, segments: seq<Segment>, debug: bool): (r: seq<string>)
    ensures |r| == |segments|
    ensures forall i :: 0 <= i < |segments| ==>
              r[i] == if debug then e.describe(segments[i]) else e.transcribe(segments[i])
  {
    if segments == [] then []
    else
      var n := |segments| - 1;
      SegmentTexts(e, segments[..n], debug) + [if debug then e.describe(segments[n]) else e.transcribe(segments[n])]
  }

  /** The segments `partToBraille` transcribes: those of the part, renotated first unless `inPlace`. */
  function PartSegments(e: Engine, part: Music21Object, keywords: Keywords): seq<Segment>
  {
    var toTranscribe := if Truthy(TranslateArgs(keywords).0) then part else e.makeNotation(part);
    e.findSegments(toTranscribe, keywords)
  }

  /** What `partToBraille` returns. */
  function PartBraille(e: Engine, part: Music21Object, keywords: Keywords): string
  {
    Join(SegmentTexts(e, PartSegments(e, part, keywords), Truthy(TranslateArgs(keywords).1)), "\n")
  }

  /** `zip(a, b)`: pairs by index, as many as the shorter sequence has. */
  function Zip<A, B>(a: seq<A>, b: seq<B>): (r: seq<(A, B)>)
    ensures |r| == if |a| < |b| then |a| else |b|
    ensures forall i :: 0 <= i < |r| ==> r[i] == (a[i], b[i])
  {
    if a == [] || b == [] then [] else [(a[0], b[0])] + Zip(a[1..], b[1..])
  }

  /** One output entry per (upper, lower) pair, in order. */
  function GrandTexts(e: Engine, pairs: seq<(Segment, Segment)>, debug: bool): (r: seq<string>)
    ensures |r| == |pairs|
    ensures forall i :: 0 <= i < |pairs| ==>
              r[i] == if debug then e.grandDescribe(pairs[i].0, pairs[i].1)
                      else e.grandTranscription(pairs[i].0, pairs[i].1)
  {
    if pairs == [] then []
    else
      var n := |pairs| - 1;
      GrandTexts(e, pairs[..n], debug) +
        [if debug then e.grandDescribe(pairs[n].0, pairs[n].1) else e.grandTranscription(pairs[n].0, pairs[n].1)]
  }

  /** What `keyboardPartsToBraille` returns: each staff is segmented as `partToBraille` would. */
  function KeyboardBraille(e: Engine, upper: Music21Object, lower: Music21Object, keywords: Keywords): string
  {
    var pairs := Zip(PartSegments(e, upper, keywords), PartSegments(e, lower, keywords));
    Join(GrandTexts(e, pairs, Truthy(TranslateArgs(keywords).1)), "\n")
  }

  /** The transcriptions of the given parts, in order. */
  function PartTexts(e: Engine, parts: seq<Music21Object>, keywords: Keywords): seq<string>
  {
    if parts == [] then []
    else
      var n := |parts| - 1;
      PartTexts(e, parts[..n], keywords) + [PartBraille(e, parts[n], keywords)]
  }

  lemma PartTextsSnoc(e: Engine, parts: seq<Music21Object>, keywords: Keywords, j: nat,
                      lines: seq<string>, prefix: seq<string>, text: string)
    requires j < |parts|
    requires lines == prefix + PartTexts(e, parts[..j], keywords) && text == PartBraille(e, parts[j], keywords)
    ensures lines + [text] == prefix + PartTexts(e, parts[..j + 1], keywords)
  {
    assert parts[..j + 1][..j] == parts[..j];
  }

  /** What `metadataToString` makes of a Metadata object; `getElementsByClass` hands it nothing else. */
  function MetadataSummary(o: Music21Object): string
  {
    match o
    case Metadata(workIds) => MetadataString(workIds)
    case _ => ""
  }

  /** The summaries of the given metadata objects, in order. */
  function MetadataTexts(metadata: seq<Music21Object>): seq<string>
  {
    if metadata == [] then []
    else
      var n := |metadata| - 1;
      MetadataTexts(metadata[..n]) + [MetadataSummary(metadata[n])]
  }

  lemma MetadataTextsSnoc(metadata: seq<Music21Object>, i: nat, lines: seq<string>, prefix: seq<string>, summary: string)
    requires i < |metadata|
    requires lines == prefix + MetadataTexts(metadata[..i]) && summary == MetadataSummary(metadata[i])
    ensures lines + [summary] == prefix + MetadataTexts(metadata[..i + 1])
  {
    PrefixOfPrefix(metadata, i);
  }

  /** What `scoreToBraille` returns: every metadata summary, then every part, one per line. */
  function ScoreBraille(e: Engine, score: Music21Object, keywords: Keywords): string
    requires score.IsStream()
  {
    var metadata := ElementsOfClass(score.elements, MetadataClass);
    var parts := ElementsOfClass(score.elements, PartClass);
    Join(MetadataTexts(metadata) + PartTexts(e, parts, keywords), "\n")
  }

  /** The transcriptions of the given scores, in order. */
  function ScoreTexts(e: Engine, scores: seq<Music21Object>, keywords: Keywords): seq<string>
    requires forall i :: 0 <= i < |scores| ==> scores[i].IsStream()
  {
    seq(|scores|, i requires 0 <= i < |scores| => ScoreBraille(e, scores[i], keywords))
  }

  lemma ScoreTextsSnoc(e: Engine, scores: seq<Music21Object>, keywords: Keywords, i: nat)
    requires i < |scores|
    requires forall k :: 0 <= k < |scores| ==> scores[k].IsStream()
    ensures ScoreTexts(e, scores[..i + 1], keywords) == ScoreTexts(e, scores[..i], keywords) + [ScoreBraille(e, scores[i], keywords)]
  {
    PrefixOfPrefix(scores, i);
  }

  /** What `opusToBraille` returns: the scores separated by a blank line. */
  function OpusBraille(e: Engine, opus: Music21Object, keywords: Keywords): string
    requires opus.IsStream()
  {
    Join(ScoreTexts(e, ElementsOfClass(opus.elements, ScoreClass), keywords), "\n\n")
  }

  /** What `measureToBraille` returns: the measure, renotated unless `inPlace`, as a one-measure Part. */
  function MeasureBraille(e: Engine, measure: Music21Object, keywords: Keywords): string
  {
    var inPlace := TranslateArgs(keywords).0;
    var toTranscribe := if Truthy(inPlace) then measure else e.makeNotation(measure);
    PartBraille(e, Part([toTranscribe], false), MeasureKeywords(keywords))
  }

  /**
    What `streamToBraille` returns. The tests are made in a fixed order: Part or
    TinyNotationStream, then Measure, then "exactly two PartStaffs", then Score,
    then Opus; anything else is refused.
   */
  function StreamBraille(e: Engine, s: Music21Object, keywords: Keywords): (r: Result<string, TranslateError>)
    ensures r.Err? <==> !s.IsStream() ||
                        (!s.Part? && !s.TinyNotation? && !s.Measure? && !s.Score? && !s.Opus?
                         && |ElementsOfClass(s.elements, PartStaffClass)| != 2)
    ensures !s.IsStream() ==> r == Err(NotAStream)
    ensures s.IsStream() && !s.Part? && !s.TinyNotation? && !s.Measure?
            && |ElementsOfClass(s.elements, PartStaffClass)| == 2 ==>
              var staffs := ElementsOfClass(s.elements, PartStaffClass);
              r == Ok(KeyboardBraille(e, staffs[0], staffs[1], keywords))
    ensures s.Score? && |ElementsOfClass(s.elements, PartStaffClass)| != 2 ==> r == Ok(ScoreBraille(e, s, keywords))
    ensures s.Opus? && |ElementsOfClass(s.elements, PartStaffClass)| != 2 ==> r == Ok(OpusBraille(e, s, keywords))
    ensures s.Part? || s.TinyNotation? ==> r == Ok(PartBraille(e, s, keywords))
    ensures s.Measure? ==> r == Ok(MeasureBraille(e, s, keywords))
  {
    if s.Part? || s.TinyNotation? then Ok(PartBraille(e, s, keywords))
    else if s.Measure? then Ok(MeasureBraille(e, s, keywords))
    else if !s.IsStream() then Err(NotAStream)
    else
      var keyboardParts := ElementsOfClass(s.elements, PartStaffClass);
      if |keyboardParts| == 2 then Ok(KeyboardBraille(e, keyboardParts[0], keyboardParts[1], keywords))
      else if s.Score? then Ok(ScoreBraille(e, s, keywords))
      else if s.Opus? then Ok(OpusBraille(e, s, keywords))
      else Err(StreamCannotBeTranslated)
  }

  /**
    What `objectToBraille` returns. Only a stream can be refused, and never as
    a non-stream: anything else is wrapped in a Measure first.
   */
  function ObjectBraille(e: Engine, o: Music21Object, keywords: Keywords): (r: Result<string, TranslateError>)
    ensures r.Err? <==> o.IsStream() && StreamBraille(e, o, keywords).Err?
    ensures r != Err(NotAStream)
  {
    if o.IsStream() then StreamBraille(e, o, keywords)
    else Ok(MeasureBraille(e, Measure([o]), keywords["inPlace" := BoolValue(true)]))
  }

  // ---------------------------------------------------------------------------
  // Metadata summary

  /** The length of the run of ASCII capitals at the start of `s`: the run stops at a character that is not one. */
  function UpperRun(s: string): (n: nat)
    ensures n <= |s|
    ensures n < |s| ==> !IsUpper(s[n])
  {
    if s != [] && IsUpper(s[0]) then 1 + UpperRun(s[1..]) else 0
  }

  /** Every character of the capital run is a capital. */
  lemma {:induction false} UpperRunAll(s: string)
    ensures forall i :: 0 <= i < UpperRun(s) ==> IsUpper(s[i])
  {
    if s != [] && IsUpper(s[0]) {
      UpperRunAll(s[1..]);
      forall i | 1 <= i < UpperRun(s) ensures IsUpper(s[i]) {
        assert s[i] == s[1..][i - 1];
      }
    }
  }

  /** The length of the run of ASCII lower-case letters at the start of `s`: the run stops at a character that is not one. */
  function LowerRun(s: string): (n: nat)
    ensures n <= |s|
    ensures n < |s| ==> !IsLower(s[n])
    ensures n > 0 ==> IsLower(s[n - 1])
  {
    if s != [] && IsLower(s[0]) then 1 + LowerRun(s[1..]) else 0
  }

  /** Every character of the lower-case run is lower-case. */
  lemma {:induction false} LowerRunAll(s: string)
    ensures forall i :: 0 <= i < LowerRun(s) ==> IsLower(s[i])
  {
    if s != [] && IsLower(s[0]) {
      LowerRunAll(s[1..]);
      forall i | 1 <= i < LowerRun(s) ensures IsLower(s[i]) {
        assert s[i] == s[1..][i - 1];
      }
    }
  }

  /** A match of the pattern `[A-Z]*[a-z]+`. */
  predicate IsWord(w: string)
  {
    var u := UpperRun(w);
    u < |w| && forall i :: u <= i < |w| ==> IsLower(w[i])
  }

  /**
    The length of the match of `[A-Z]*[a-z]+` at the start of `s`, or 0 where
    none starts there: as many capitals as there are, then at least one
    lower-case letter, as many as there are. A match ends in a lower-case
    letter that the next character does not continue, and where none starts
    the first character is not lower-case.
   */
  function FrontMatch(s: string): (n: nat)
    ensures n <= |s|
    ensures n > 0 ==> IsLower(s[n - 1]) && (n < |s| ==> !IsLower(s[n]))
    ensures n == 0 && s != [] ==> !IsLower(s[0])
  {
    if s == [] then 0
    else if IsUpper(s[0]) then (if FrontMatch(s[1..]) == 0 then 0 else 1 + FrontMatch(s[1..]))
    else LowerRun(s)
  }

  /** The match at the front is the run of capitals followed by the run of lower-case letters after it, when that is not empty. */
  lemma {:induction false} FrontMatchRuns(s: string)
    ensures FrontMatch(s) == if LowerRun(s[UpperRun(s)..]) == 0 then 0 else UpperRun(s) + LowerRun(s[UpperRun(s)..])
  {
    if s != [] && IsUpper(s[0]) {
      FrontMatchRuns(s[1..]);
      assert s[UpperRun(s)..] == s[1..][UpperRun(s[1..])..];
    } else {
      assert s[0..] == s;
    }
  }

  /**
    `re.findall(r"([A-Z]*[a-z]+)", s)`: scanning from the left, where no match
    starts at the current position the scan moves on by one character, and
    after a match it resumes at the match's end.
   */
  function FindWords(s: string): (r: seq<string>)
    decreases |s|
  {
    if s == [] then []
    else if FrontMatch(s) == 0 then FindWords(s[1..])
    else [s[..FrontMatch(s)]] + FindWords(s[FrontMatch(s)..])
  }

  /** Every string `re.findall` returns is a match of `[A-Z]*[a-z]+`. */
  lemma {:induction false} FindWordsAreWords(s: string)
    ensures forall i :: 0 <= i < |FindWords(s)| ==> IsWord(FindWords(s)[i])
    decreases |s|
  {
    if s != [] {
      if FrontMatch(s) == 0 {
        FindWordsAreWords(s[1..]);
      } else {
        FindWordsAreWords(s[FrontMatch(s)..]);
        FrontIsWord(s);
      }
    }
  }

  /** The match at the front of `s`, where there is one, is a word. */
  lemma FrontIsWord(s: string)
    requires FrontMatch(s) > 0
    ensures IsWord(s[..FrontMatch(s)])
  {
    FrontMatchRuns(s);
    RunsAreWord(s, UpperRun(s), LowerRun(s[UpperRun(s)..]));
  }

  /** The capital run of `s` followed by the lower-case run after it, when that is not empty, is a word. */
  lemma RunsAreWord(s: string, u: nat, l: nat)
    requires u == UpperRun(s) && l == LowerRun(s[u..]) && l > 0
    ensures IsWord(s[..u + l])
  {
    RunsUpperPart(s, u, l);
    RunsLowerPart(s, u, l, s[..u + l]);
  }

  /** The capital run of `s`, followed by a lower-case letter, is the capital run of the word. */
  lemma RunsUpperPart(s: string, u: nat, l: nat)
    requires u == UpperRun(s) && l == LowerRun(s[u..]) && l > 0
    ensures u + l <= |s| && UpperRun(s[..u + l]) == u
  {
    var w := s[..u + l];
    UpperRunAll(s);
    forall i | 0 <= i < u ensures IsUpper(w[i]) {
      assert w[i] == s[i];
    }
    assert w[u] == s[u..][0];
    UpperRunExact(w, u);
  }

  /** A prefix `w` of `s` that ends with the lower-case run starting at `u` is lower-case from `u` on. */
  lemma RunsLowerPart(s: string, u: nat, l: nat, w: string)
    requires u <= |s| && l == LowerRun(s[u..]) && w == s[..u + l]
    ensures forall i :: u <= i < |w| ==> IsLower(w[i])
  {
    var t := s[u..];
    LowerRunAll(t);
    forall i | u <= i < |w| ensures IsLower(w[i]) {
      assert w[i] == t[i - u];
    }
  }

  /** A run of capitals that the next character does not continue is the capital run. */
  lemma {:induction false} UpperRunExact(w: string, u: nat)
    requires u <= |w| && (u < |w| ==> !IsUpper(w[u]))
    requires forall i :: 0 <= i < u ==> IsUpper(w[i])
    ensures UpperRun(w) == u
  {
    if u > 0 {
      UpperRunExact(w[1..], u - 1);
    }
  }

  /**
    Python's `str.title()` over ASCII: a letter is upper-cased when the
    character before it is not a letter, and lower-cased otherwise; other
    characters are kept. `afterLetter` says whether the preceding character was
    a letter.
   */
  function TitleCase(s: string, afterLetter: bool): (r: string)
    ensures |r| == |s|
  {
    if s == [] then []
    else if IsLetter(s[0]) then [if afterLetter then ToLower(s[0]) else ToUpper(s[0])] + TitleCase(s[1..], true)
    else [s[0]] + TitleCase(s[1..], false)
  }

  /** A word with its first letter upper-cased and the rest lower-cased. */
  function Capitalize(w: string): (r: string)
    requires w != []
    ensures |r| == |w| && r[0] == ToUpper(w[0])
    ensures forall i :: 1 <= i < |w| ==> r[i] == ToLower(w[i])
  {
    [ToUpper(w[0])] + LowerString(w[1..])
  }

  function CapitalizeAll(ws: seq<string>): (r: seq<string>)
    requires forall i :: 0 <= i < |ws| ==> ws[i] != []
    ensures |r| == |ws|
    ensures forall i :: 0 <= i < |ws| ==> r[i] == Capitalize(ws[i])
  {
    if ws == [] then [] else [Capitalize(ws[0])] + CapitalizeAll(ws[1..])
  }

  /** A line of `metadataToString`: the key's words, title-cased and space-joined, then ": " and the value. */
  function WorkIdLine(key: string, value: string): string
  {
    TitleCase(Join(FindWords(key), " "), false) + ": " + value
  }

  /** One line per work id whose value is not `None`, in dictionary order. */
  function MetadataLines(workIds: seq<(string, Option<string>)>): seq<string>
  {
    if workIds == [] then []
    else
      var n := |workIds| - 1;
      var (key, value) := workIds[n];
      MetadataLines(workIds[..n]) + (if value.Some? then [WorkIdLine(key, value.value)] else [])
  }

  /** What `metadataToString` returns: the lines, sorted, one per line. */
  function MetadataString(workIds: seq<(string, Option<string>)>): string
  {
    Join(SortStrings(MetadataLines(workIds)), "\n")
  }

  // ---------------------------------------------------------------------------
  // The transcribers, as the source writes them

  /** `partToBraille` */
  method PartToBraille(e: Engine, part: Music21Object, keywords: Keywords) returns (text: string)
    ensures text == PartBraille(e, part, keywords)
  {
    var (inPlace, debug) := TranslateArgs(keywords);
    var partToTranscribe := part;
    if !Truthy(inPlace) {
      partToTranscribe := e.makeNotation(part);
    }
    var allSegments := e.findSegments(partToTranscribe, keywords);
    var allBrailleText: seq<string> := [];
    var i := 0;
    while i < |allSegments|
      invariant 0 <= i <= |allSegments|
      invariant allBrailleText == SegmentTexts(e, allSegments[..i], Truthy(debug))
    {
      var transcription := e.transcribe(allSegments[i]);
      if !Truthy(debug) {
        allBrailleText := allBrailleText + [transcription];
      } else {
        allBrailleText := allBrailleText + [e.describe(allSegments[i])];
      }
      PrefixOfPrefix(allSegments, i);
      i := i + 1;
    }
    PrefixAll(allSegments);
    text := Join(allBrailleText, "\n");
  }

  /** `keyboardPartsToBraille`: upper and lower segments paired by index, bar over bar. */
  method KeyboardPartsToBraille(e: Engine, upper: Music21Object, lower: Music21Object, keywords: Keywords)
    returns (text: string)
    ensures text == KeyboardBraille(e, upper, lower, keywords)
  {
    var (inPlace, debug) := TranslateArgs(keywords);
    var upperPartToTranscribe := upper;
    if !Truthy(inPlace) {
      upperPartToTranscribe := e.makeNotation(upper);
    }
    var lowerPartToTranscribe := lower;
    if !Truthy(inPlace) {
      lowerPartToTranscribe := e.makeNotation(lower);
    }
    var rhSegments := e.findSegments(upperPartToTranscribe, keywords);
    var lhSegments := e.findSegments(lowerPartToTranscribe, keywords);
    var pairs := Zip(rhSegments, lhSegments);
    var allBrailleText: seq<string> := [];
    var i := 0;
    while i < |pairs|
      invariant 0 <= i <= |pairs|
      invariant allBrailleText == GrandTexts(e, pairs[..i], Truthy(debug))
    {
      var (rhSegment, lhSegment) := pairs[i];
      if !Truthy(debug) {
        allBrailleText := allBrailleText + [e.grandTranscription(rhSegment, lhSegment)];
      } else {
        allBrailleText := allBrailleText + [e.grandDescribe(rhSegment, lhSegment)];
      }
      PrefixOfPrefix(pairs, i);
      i := i + 1;
    }
    PrefixAll(pairs);
    text := Join(allBrailleText, "\n");
  }

  /** `metadataToString` */
  method MetadataToString(workIds: seq<(string, Option<string>)>) returns (text: string)
    ensures text == MetadataString(workIds)
  {
    var allBrailleLines: seq<string> := [];
    var i := 0;
    while i < |workIds|
      invariant 0 <= i <= |workIds|
      invariant allBrailleLines == MetadataLines(workIds[..i])
    {
      var (key, value) := workIds[i];
      if value.Some? {
        var n := Join(FindWords(key), " ");
        allBrailleLines := allBrailleLines + [TitleCase(n, false) + ": " + value.value];
      }
      PrefixOfPrefix(workIds, i);
      i := i + 1;
    }
    PrefixAll(workIds);
    text := Join(SortStrings(allBrailleLines), "\n");
  }

  /** The first loop of `scoreToBraille`: one summary line per metadata object, appended in order. */
  method AppendMetadataLines(metadata: seq<Music21Object>, lines: seq<string>) returns (r: seq<string>)
    requires forall k :: 0 <= k < |metadata| ==> metadata[k].Metadata?
    ensures r == lines + MetadataTexts(metadata)
  {
    r := lines;
    var i := 0;
    while i < |metadata|
      invariant 0 <= i <= |metadata|
      invariant r == lines + MetadataTexts(metadata[..i])
    {
      var summary := MetadataToString(metadata[i].workIds);
      MetadataTextsSnoc(metadata, i, r, lines, summary);
      r := r + [summary];
      i := i + 1;
    }
    PrefixAll(metadata);
  }

  /** The second loop of `scoreToBraille`: one transcription per part, appended in order. */
  method AppendPartLines(e: Engine, parts: seq<Music21Object>, keywords: Keywords, lines: seq<string>) returns (r: seq<string>)
    ensures r == lines + PartTexts(e, parts, keywords)
  {
    r := lines;
    var j := 0;
    while j < |parts|
      invariant 0 <= j <= |parts|
      invariant r == lines + PartTexts(e, parts[..j], keywords)
    {
      var braillePart := PartToBraille(e, parts[j], keywords);
      PartTextsSnoc(e, parts, keywords, j, r, lines, braillePart);
      r := r + [braillePart];
      j := j + 1;
    }
    PrefixAll(parts);
  }

  /** `scoreToBraille` */
  method ScoreToBraille(e: Engine, score: Music21Object, keywords: Keywords) returns (text: string)
    requires score.IsStream()
    ensures text == ScoreBraille(e, score, keywords)
  {
    var allBrailleLines: seq<string> := [];
    var metadata := GetElementsByClass(score, MetadataClass);
    allBrailleLines := AppendMetadataLines(metadata, allBrailleLines);
    assert allBrailleLines == MetadataTexts(metadata);
    var parts := GetElementsByClass(score, PartClass);
    allBrailleLines := AppendPartLines(e, parts, keywords, allBrailleLines);
    text := Join(allBrailleLines, "\n");
  }

  /** `opusToBraille` */
  method OpusToBraille(e: Engine, opus: Music21Object, keywords: Keywords) returns (text: string)
    requires opus.IsStream()
    ensures text == OpusBraille(e, opus, keywords)
  {
    var scores := GetElementsByClass(opus, ScoreClass);
    var allBrailleLines := ScoreLines(e, scores, keywords);
    text := Join(allBrailleLines, "\n\n");
  }

  /** The loop of `opusToBraille`: one transcription per score, in order. */
  method ScoreLines(e: Engine, scores: seq<Music21Object>, keywords: Keywords) returns (lines: seq<string>)
    requires forall k :: 0 <= k < |scores| ==> scores[k].IsStream()
    ensures lines == ScoreTexts(e, scores, keywords)
  {
    lines := [];
    var i := 0;
    while i < |scores|
      invariant 0 <= i <= |scores|
      invariant lines == ScoreTexts(e, scores[..i], keywords)
    {
      var scoreText := ScoreToBraille(e, scores[i], keywords);
      ScoreTextsSnoc(e, scores, keywords, i);
      lines := lines + [scoreText];
      i := i + 1;
    }
    PrefixAll(scores);
  }

  /** `measureToBraille`: settles the keyword defaults in place, then transcribes a one-measure Part. */
  method MeasureToBraille(e: Engine, measure: Music21Object, keywords: Keywords) returns (text: string)
    ensures text == MeasureBraille(e, measure, keywords)
  {
    var (inPlace, _) := TranslateArgs(keywords);
    var kw := keywords;
    if "showHeading" !in kw {
      kw := kw["showHeading" := BoolValue(false)];
    }
    if "showFirstMeasureNumber" !in kw {
      kw := kw["showFirstMeasureNumber" := BoolValue(false)];
    }
    var measureToTranscribe := measure;
    if !Truthy(inPlace) {
      measureToTranscribe := e.makeNotation(measure);
    }
    var part := Part([measureToTranscribe], false);
    kw := kw["inPlace" := BoolValue(true)];
    text := PartToBraille(e, part, kw);
  }

  /** `streamToBraille` */
  method StreamToBraille(e: Engine, s: Music21Object, keywords: Keywords) returns (r: Result<string, TranslateError>)
    ensures r == StreamBraille(e, s, keywords)
  {
    if s.Part? || s.TinyNotation? {
      var text := PartToBraille(e, s, keywords);
      return Ok(text);
    }
    if s.Measure? {
      var text := MeasureToBraille(e, s, keywords);
      return Ok(text);
    }
    if !s.IsStream() {
      return Err(NotAStream);
    }
    var keyboardParts := GetElementsByClass(s, PartStaffClass);
    if |keyboardParts| == 2 {
      var text := KeyboardPartsToBraille(e, keyboardParts[0], keyboardParts[1], keywords);
      return Ok(text);
    }
    if s.Score? {
      var text := ScoreToBraille(e, s, keywords);
      return Ok(text);
    }
    if s.Opus? {
      var text := OpusToBraille(e, s, keywords);
      return Ok(text);
    }
    return Err(StreamCannotBeTranslated);
  }

  /** `objectToBraille`: a non-stream object is put in a fresh Measure and transcribed with `inPlace` forced on. */
  method ObjectToBraille(e: Engine, o: Music21Object, keywords: Keywords) returns (r: Result<string, TranslateError>)
    ensures r == ObjectBraille(e, o, keywords)
  {
    if o.IsStream() {
      r := StreamToBraille(e, o, keywords);
    } else {
      var music21Measure := Measure([o]);
      var kw := keywords["inPlace" := BoolValue(true)];
      var text := MeasureToBraille(e, music21Measure, kw);
      r := Ok(text);
    }
  }
}
