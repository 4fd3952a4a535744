/**
  What the braille entry layer promises about the text it assembles: one line
  per segment, bar over bar for a keyboard pair, metadata before parts, a blank
  line between the scores of an opus, and a metadata summary that is the sorted
  work-id lines whatever the dictionary's order.
 */
module BrailleProperties {
  import opened Wrappers
  import opened Text
  import opened BrailleTranslate

  /** No string in `xs` holds a line break. */
  predicate SingleLines(xs: seq<string>)
  {
    forall i :: 0 <= i < |xs| ==> '\n' !in xs[i]
  }

  // ---------------------------------------------------------------------------
  // partToBraille and keyboardPartsToBraille

  /**
    When no segment transcribes to more than one line, the lines of the part's
    braille are the segment entries: one line per segment, in segment order.
   */
  lemma PartLinesAreSegments(e: Engine, part: Music21Object, keywords: Keywords)
    requires PartSegments(e, part, keywords) != []
    requires SingleLines(SegmentTexts(e, PartSegments(e, part, keywords), Truthy(TranslateArgs(keywords).1)))
    ensures Split(PartBraille(e, part, keywords), '\n') ==
            SegmentTexts(e, PartSegments(e, part, keywords), Truthy(TranslateArgs(keywords).1))
    ensures |Split(PartBraille(e, part, keywords), '\n')| == |PartSegments(e, part, keywords)|
  {
    SplitJoin(SegmentTexts(e, PartSegments(e, part, keywords), Truthy(TranslateArgs(keywords).1)), '\n');
  }

  /**
    Bar over bar: line `i` of the keyboard braille is the grand segment built
    from the `i`th upper and the `i`th lower segment, and there are as many
    lines as the shorter staff has segments.
   */
  lemma KeyboardLinesPairSegments(e: Engine, upper: Music21Object, lower: Music21Object, keywords: Keywords)
    requires PartSegments(e, upper, keywords) != [] && PartSegments(e, lower, keywords) != []
    requires !Truthy(TranslateArgs(keywords).1)
    requires SingleLines(GrandTexts(e, Zip(PartSegments(e, upper, keywords), PartSegments(e, lower, keywords)), false))
    ensures var rh := PartSegments(e, upper, keywords);
            var lh := PartSegments(e, lower, keywords);
            var lines := Split(KeyboardBraille(e, upper, lower, keywords), '\n');
            |lines| == (if |rh| < |lh| then |rh| else |lh|) &&
            forall i :: 0 <= i < |lines| ==> lines[i] == e.grandTranscription(rh[i], lh[i])
  {
    var pairs := Zip(PartSegments(e, upper, keywords), PartSegments(e, lower, keywords));
    SplitJoin(GrandTexts(e, pairs, false), '\n');
  }

  /** Under `debug` each line is the grand segment's trace instead. */
  lemma KeyboardDebugLines(e: Engine, upper: Music21Object, lower: Music21Object, keywords: Keywords)
    requires PartSegments(e, upper, keywords) != [] && PartSegments(e, lower, keywords) != []
    requires Truthy(TranslateArgs(keywords).1)
    requires SingleLines(GrandTexts(e, Zip(PartSegments(e, upper, keywords), PartSegments(e, lower, keywords)), true))
    ensures var rh := PartSegments(e, upper, keywords);
            var lh := PartSegments(e, lower, keywords);
            var lines := Split(KeyboardBraille(e, upper, lower, keywords), '\n');
            |lines| == (if |rh| < |lh| then |rh| else |lh|) &&
            forall i :: 0 <= i < |lines| ==> lines[i] == e.grandDescribe(rh[i], lh[i])
  {
    var pairs := Zip(PartSegments(e, upper, keywords), PartSegments(e, lower, keywords));
    SplitJoin(GrandTexts(e, pairs, true), '\n');
  }

  /** When either staff has no segments, `zip` yields no pair: the keyboard braille is empty and nothing is raised. */
  lemma KeyboardNoPairs(e: Engine, upper: Music21Object, lower: Music21Object, keywords: Keywords)
    requires PartSegments(e, upper, keywords) == [] || PartSegments(e, lower, keywords) == []
    ensures KeyboardBraille(e, upper, lower, keywords) == ""
  {
    var pairs := Zip(PartSegments(e, upper, keywords), PartSegments(e, lower, keywords));
    assert pairs == [];
    assert GrandTexts(e, pairs, Truthy(TranslateArgs(keywords).1)) == [];
  }

  // ---------------------------------------------------------------------------
  // scoreToBraille and opusToBraille

  lemma {:induction false} MetadataTextsPointwise(metadata: seq<Music21Object>)
    ensures |MetadataTexts(metadata)| == |metadata|
    ensures forall i :: 0 <= i < |metadata| ==> MetadataTexts(metadata)[i] == MetadataSummary(metadata[i])
  {
    MetadataTextsLength(metadata);
    forall i | 0 <= i < |metadata| ensures MetadataTexts(metadata)[i] == MetadataSummary(metadata[i]) {
      MetadataTextsAt(metadata, i);
    }
  }

  lemma {:induction false} MetadataTextsLength(metadata: seq<Music21Object>)
    ensures |MetadataTexts(metadata)| == |metadata|
  {
    if metadata != [] {
      MetadataTextsLength(metadata[..|metadata| - 1]);
    }
  }

  lemma {:induction false} MetadataTextsAt(metadata: seq<Music21Object>, i: nat)
    requires i < |metadata|
    ensures |MetadataTexts(metadata)| == |metadata| && MetadataTexts(metadata)[i] == MetadataSummary(metadata[i])
  {
    var n := |metadata| - 1;
    var init := metadata[..n];
    MetadataTextsLength(init);
    var last := MetadataSummary(metadata[n]);
    assert MetadataTexts(metadata) == MetadataTexts(init) + [last];
    if i < n {
      MetadataTextsAt(init, i);
      assert init[i] == metadata[i];
    }
  }

  lemma {:induction false} PartTextsPointwise(e: Engine, parts: seq<Music21Object>, keywords: Keywords)
    ensures |PartTexts(e, parts, keywords)| == |parts|
    ensures forall i :: 0 <= i < |parts| ==> PartTexts(e, parts, keywords)[i] == PartBraille(e, parts[i], keywords)
  {
    PartTextsLength(e, parts, keywords);
    forall i | 0 <= i < |parts| ensures PartTexts(e, parts, keywords)[i] == PartBraille(e, parts[i], keywords) {
      PartTextsAt(e, parts, keywords, i);
    }
  }

  /** Text `i` of an opus's score texts is the braille of score `i`, one per score. */
  lemma ScoreTextsPointwise(e: Engine, scores: seq<Music21Object>, keywords: Keywords)
    requires forall i :: 0 <= i < |scores| ==> scores[i].IsStream()
    ensures |ScoreTexts(e, scores, keywords)| == |scores|
    ensures forall i :: 0 <= i < |scores| ==> ScoreTexts(e, scores, keywords)[i] == ScoreBraille(e, scores[i], keywords)
  {
  }

  lemma {:induction false} PartTextsLength(e: Engine, parts: seq<Music21Object>, keywords: Keywords)
    ensures |PartTexts(e, parts, keywords)| == |parts|
  {
    if parts != [] {
      PartTextsLength(e, parts[..|parts| - 1], keywords);
    }
  }

  lemma {:induction false} PartTextsAt(e: Engine, parts: seq<Music21Object>, keywords: Keywords, i: nat)
    requires i < |parts|
    ensures |PartTexts(e, parts, keywords)| == |parts| && PartTexts(e, parts, keywords)[i] == PartBraille(e, parts[i], keywords)
  {
    var n := |parts| - 1;
    var init := parts[..n];
    PartTextsLength(e, init, keywords);
    var last := PartBraille(e, parts[n], keywords);
    assert PartTexts(e, parts, keywords) == PartTexts(e, init, keywords) + [last];
    if i < n {
      PartTextsAt(e, init, keywords, i);
      assert init[i] == parts[i];
    }
  }

  /**
    A score's braille is its metadata summaries, then its parts, with exactly one
    line break between the last summary and the first part.
   */
  lemma ScoreMetadataThenParts(e: Engine, score: Music21Object, keywords: Keywords)
    requires score.IsStream()
    ensures var metadata := MetadataTexts(ElementsOfClass(score.elements, MetadataClass));
            var parts := PartTexts(e, ElementsOfClass(score.elements, PartClass), keywords);
            ScoreBraille(e, score, keywords) ==
              if metadata == [] then Join(parts, "\n")
              else if parts == [] then Join(metadata, "\n")
              else Join(metadata, "\n") + "\n" + Join(parts, "\n")
  {
    var metadata := MetadataTexts(ElementsOfClass(score.elements, MetadataClass));
    var parts := PartTexts(e, ElementsOfClass(score.elements, PartClass), keywords);
    if metadata == [] {
      assert metadata + parts == parts;
    } else if parts == [] {
      assert metadata + parts == metadata;
    } else {
      JoinAppend(metadata, parts, "\n");
    }
  }

  /** An opus's braille ends with its last score, set off from the others by a blank line. */
  lemma OpusLastScore(e: Engine, opus: Music21Object, keywords: Keywords)
    requires opus.IsStream()
    requires |ElementsOfClass(opus.elements, ScoreClass)| >= 2
    ensures var scores := ElementsOfClass(opus.elements, ScoreClass);
            var n := |scores| - 1;
            OpusBraille(e, opus, keywords) ==
              Join(ScoreTexts(e, scores[..n], keywords), "\n\n") + "\n\n" + ScoreBraille(e, scores[n], keywords)
  {
    var scores := ElementsOfClass(opus.elements, ScoreClass);
    var n := |scores| - 1;
    var init := scores[..n];
    ScoreTextsSnoc(e, scores, keywords, n);
    assert scores[..n + 1] == scores;
    JoinSnoc(ScoreTexts(e, init, keywords), ScoreBraille(e, scores[n], keywords), "\n\n");
  }

  /** With one score, an opus reads exactly as that score. */
  lemma OpusOfOneScore(e: Engine, opus: Music21Object, keywords: Keywords)
    requires opus.IsStream()
    requires |ElementsOfClass(opus.elements, ScoreClass)| == 1
    ensures OpusBraille(e, opus, keywords) == ScoreBraille(e, ElementsOfClass(opus.elements, ScoreClass)[0], keywords)
  {
  }

  // ---------------------------------------------------------------------------
  // objectToBraille and measureToBraille

  /**
    A non-stream object is transcribed as a one-measure part holding a Measure
    that holds it, as it stands: `inPlace` is forced on, so the engine's
    renotation is never consulted and the caller's own `inPlace` is ignored.
   */
  lemma ObjectInMeasureAsItStands(e: Engine, o: Music21Object, keywords: Keywords, v: Value,
                                  renotate: Music21Object -> Music21Object)
    requires !o.IsStream()
    ensures ObjectBraille(e, o, keywords) ==
            Ok(PartBraille(e, Part([Measure([o])], false), MeasureKeywords(keywords["inPlace" := BoolValue(true)])))
    ensures ObjectBraille(e, o, keywords) == ObjectBraille(e.(makeNotation := renotate), o, keywords)
    ensures ObjectBraille(e, o, keywords) == ObjectBraille(e, o, keywords["inPlace" := v])
  {
    assert keywords["inPlace" := v]["inPlace" := BoolValue(true)] == keywords["inPlace" := BoolValue(true)];
    var kw := MeasureKeywords(keywords["inPlace" := BoolValue(true)]);
    assert TranslateArgs(kw).0 == BoolValue(true);
    var e' := e.(makeNotation := renotate);
    var part := Part([Measure([o])], false);
    assert PartSegments(e', part, kw) == PartSegments(e, part, kw);
    var debug := Truthy(TranslateArgs(kw).1);
    assert SegmentTexts(e', PartSegments(e, part, kw), debug) == SegmentTexts(e, PartSegments(e, part, kw), debug);
  }

  /** Settling the measure keywords twice changes nothing. */
  lemma MeasureKeywordsIdempotent(keywords: Keywords)
    ensures MeasureKeywords(MeasureKeywords(keywords)) == MeasureKeywords(keywords)
  {
    var once := MeasureKeywords(keywords);
    var twice := MeasureKeywords(once);
    assert twice.Keys == once.Keys;
    forall k | k in once.Keys ensures twice[k] == once[k] {
    }
  }

  /** `streamToBraille` reaches the keyboard transcriber only for a stream that is not itself a Part or Measure. */
  lemma PartWinsOverKeyboard(e: Engine, s: Music21Object, keywords: Keywords)
    requires s.Part?
    requires |ElementsOfClass(s.elements, PartStaffClass)| == 2
    ensures StreamBraille(e, s, keywords) == Ok(PartBraille(e, s, keywords))
  {
  }

  // ---------------------------------------------------------------------------
  // metadataToString

  /** The lines of a dictionary split in two are the lines of the first half, then of the second. */
  lemma {:induction false} MetadataLinesAppend(a: seq<(string, Option<string>)>, b: seq<(string, Option<string>)>)
    ensures MetadataLines(a + b) == MetadataLines(a) + MetadataLines(b)
  {
    if b == [] {
      assert a + b == a;
    } else {
      var n := |b| - 1;
      assert (a + b)[..|a| + n] == a + b[..n];
      assert (a + b)[|a| + n] == b[n];
      MetadataLinesAppend(a, b[..n]);
    }
  }

  /** Reordering the work ids only reorders the lines. */
  lemma {:induction false} MetadataLinesPermute(a: seq<(string, Option<string>)>, b: seq<(string, Option<string>)>)
    requires multiset(a) == multiset(b)
    ensures multiset(MetadataLines(a)) == multiset(MetadataLines(b))
  {
    if a == [] {
      assert |b| == |multiset(b)| == 0;
    } else {
      var n := |a| - 1;
      var x := a[n];
      assert a == a[..n] + [x];
      assert x in multiset(b);
      var k :| 0 <= k < |b| && b[k] == x;
      var rest := b[..k] + b[k + 1..];
      assert b == b[..k] + [x] + b[k + 1..];
      assert multiset(rest) == multiset(b) - multiset{x};
      assert multiset(a[..n]) == multiset(a) - multiset{x};
      MetadataLinesPermute(a[..n], rest);
      MetadataLinesAppend(a[..n], [x]);
      MetadataLinesAppend(b[..k] + [x], b[k + 1..]);
      MetadataLinesAppend(b[..k], [x]);
      MetadataLinesAppend(b[..k], b[k + 1..]);
    }
  }

  /**
    The summary does not depend on the order in which the dictionary yields
    its work ids: the lines are sorted before they are joined.
   */
  lemma MetadataOrderIndependent(a: seq<(string, Option<string>)>, b: seq<(string, Option<string>)>)
    requires multiset(a) == multiset(b)
    ensures MetadataString(a) == MetadataString(b)
  {
    MetadataLinesPermute(a, b);
    SortedUnique(SortStrings(MetadataLines(a)), SortStrings(MetadataLines(b)));
  }

  /** The line a work id contributes, if its value is not `None`. */
  predicate ProducesLine(workIds: seq<(string, Option<string>)>, i: int, line: string)
  {
    0 <= i < |workIds| && workIds[i].1.Some? && line == WorkIdLine(workIds[i].0, workIds[i].1.value)
  }

  lemma {:induction false} MetadataLinesFrom(workIds: seq<(string, Option<string>)>, line: string)
    requires line in MetadataLines(workIds)
    ensures exists i :: ProducesLine(workIds, i, line)
  {
    var n := |workIds| - 1;
    if line in MetadataLines(workIds[..n]) {
      MetadataLinesFrom(workIds[..n], line);
      var i :| ProducesLine(workIds[..n], i, line);
      assert workIds[..n][i] == workIds[i];
      assert ProducesLine(workIds, i, line);
    } else {
      assert ProducesLine(workIds, n, line);
    }
  }

  lemma {:induction false} MetadataLinesTo(workIds: seq<(string, Option<string>)>, i: int, line: string)
    requires ProducesLine(workIds, i, line)
    ensures line in MetadataLines(workIds)
  {
    var n := |workIds| - 1;
    if i < n {
      assert workIds[..n][i] == workIds[i];
      MetadataLinesTo(workIds[..n], i, line);
    }
  }

  /** A line is in the summary exactly when some work id with a value produces it; `None` values give no line. */
  lemma MetadataLinesMembership(workIds: seq<(string, Option<string>)>, line: string)
    ensures line in MetadataLines(workIds) <==> exists i :: ProducesLine(workIds, i, line)
  {
    if line in MetadataLines(workIds) {
      MetadataLinesFrom(workIds, line);
    }
    if exists i :: ProducesLine(workIds, i, line) {
      var i :| ProducesLine(workIds, i, line);
      MetadataLinesTo(workIds, i, line);
    }
  }

  /** A string of ASCII letters only. */
  predicate Letters(w: string)
  {
    forall i :: 0 <= i < |w| ==> IsLetter(w[i])
  }

  lemma WordIsLetters(w: string)
    requires IsWord(w)
    ensures w != [] && Letters(w)
  {
    var u := UpperRun(w);
    UpperRunAll(w);
    forall i | 0 <= i < |w| ensures IsLetter(w[i]) {
      if i < u {
        assert IsUpper(w[i]);
      }
    }
  }

  /** Title-casing never makes a character that is not a letter. */
  lemma {:induction false} TitleCaseFree(s: string, afterLetter: bool, c: char)
    requires !IsLetter(c) && c !in s
    ensures c !in TitleCase(s, afterLetter)
  {
    if s != [] {
      TitleCaseFree(s[1..], IsLetter(s[0]), c);
    }
  }

  /** A work-id line is one line when its value is. */
  lemma WorkIdLineSingle(key: string, value: string)
    requires '\n' !in value
    ensures '\n' !in WorkIdLine(key, value)
  {
    var words := FindWords(key);
    FindWordsAreWords(key);
    forall i | 0 <= i < |words| ensures '\n' !in words[i] {
      WordIsLetters(words[i]);
    }
    JoinFree(words, " ", '\n');
    TitleCaseFree(Join(words, " "), false, '\n');
  }

  /**
    When no value holds a line break and at least one value is not `None`, the
    lines of the summary are the work-id lines in sorted order.
   */
  lemma MetadataStringLines(workIds: seq<(string, Option<string>)>)
    requires forall i :: 0 <= i < |workIds| && workIds[i].1.Some? ==> '\n' !in workIds[i].1.value
    requires exists i :: 0 <= i < |workIds| && workIds[i].1.Some?
    ensures Split(MetadataString(workIds), '\n') == SortStrings(MetadataLines(workIds))
  {
    var lines := MetadataLines(workIds);
    var sorted := SortStrings(lines);
    var k :| 0 <= k < |workIds| && workIds[k].1.Some?;
    MetadataLinesTo(workIds, k, WorkIdLine(workIds[k].0, workIds[k].1.value));
    assert lines != [];
    assert sorted != [] by {
      assert |sorted| == |multiset(sorted)| == |multiset(lines)| == |lines|;
    }
    forall j | 0 <= j < |sorted| ensures '\n' !in sorted[j] {
      assert sorted[j] in multiset(lines);
      MetadataLinesFrom(workIds, sorted[j]);
      var i :| ProducesLine(workIds, i, sorted[j]);
      WorkIdLineSingle(workIds[i].0, workIds[i].1.value);
    }
    SplitJoin(sorted, '\n');
  }

  /** Title-casing a run of letters capitalises its first letter (unless a letter precedes it) and lowers the rest. */
  lemma {:induction false} TitleCaseLetterRun(w: string, t: string, afterLetter: bool)
    requires w != [] && Letters(w)
    ensures TitleCase(w + t, afterLetter) ==
            [if afterLetter then ToLower(w[0]) else ToUpper(w[0])] + LowerString(w[1..]) + TitleCase(t, true)
  {
    assert (w + t)[1..] == w[1..] + t;
    if |w| == 1 {
      assert w[1..] == [];
    } else {
      TitleCaseLetterRun(w[1..], t, true);
      assert LowerString(w[1..]) == [ToLower(w[1])] + LowerString(w[2..]);
      assert w[1..][1..] == w[2..];
    }
  }

  /** `title()` of space-separated words capitalises each word. */
  lemma {:induction false} TitleCaseWords(ws: seq<string>)
    requires ws != []
    requires forall i :: 0 <= i < |ws| ==> ws[i] != [] && Letters(ws[i])
    ensures TitleCase(Join(ws, " "), false) == Join(CapitalizeAll(ws), " ")
  {
    if |ws| == 1 {
      TitleCaseLetterRun(ws[0], [], false);
      assert ws[0] + [] == ws[0];
    } else {
      var tail := Join(ws[1..], " ");
      TitleCaseLetterRun(ws[0], " " + tail, false);
      assert ws[0] + " " + tail == ws[0] + (" " + tail);
      assert TitleCase(" " + tail, true) == " " + TitleCase(tail, false) by {
        assert (" " + tail)[1..] == tail;
      }
      TitleCaseWords(ws[1..]);
      assert CapitalizeAll(ws)[1..] == CapitalizeAll(ws[1..]);
    }
  }

  /**
    A work-id line reads as the key's words, each capitalised, separated by
    spaces, then a colon, a space and the value; a key with no word gives just
    the colon, the space and the value.
   */
  lemma WorkIdLineWords(key: string, value: string)
    ensures var words := FindWords(key);
            forall i :: 0 <= i < |words| ==> words[i] != []
    ensures var words := FindWords(key);
            WorkIdLine(key, value) ==
              if words == [] then ": " + value
              else Join(CapitalizeAll(words), " ") + ": " + value
  {
    var words := FindWords(key);
    FindWordsAreWords(key);
    forall i | 0 <= i < |words| ensures words[i] != [] && Letters(words[i]) {
      WordIsLetters(words[i]);
    }
    if words != [] {
      TitleCaseWords(words);
    }
  }

  // ---------------------------------------------------------------------------
  // the matches of [A-Z]*[a-z]+

  /** Each word `ws[i]` is the slice of `s` that starts at `ps[i]`. */
  predicate Located(s: string, ws: seq<string>, ps: seq<nat>)
  {
    |ps| == |ws| && forall i :: 0 <= i < |ws| ==> ps[i] + |ws[i]| <= |s| && s[ps[i]..ps[i] + |ws[i]|] == ws[i]
  }

  /** The words follow one another without overlapping. */
  predicate InOrder(ws: seq<string>, ps: seq<nat>)
    requires |ps| == |ws|
  {
    forall i :: 0 < i < |ws| ==> ps[i - 1] + |ws[i - 1]| <= ps[i]
  }

  /** No word could take in the character after it: that one is not lower-case. */
  predicate RightMaximal(s: string, ws: seq<string>, ps: seq<nat>)
    requires Located(s, ws, ps)
  {
    forall i :: 0 <= i < |ws| && ps[i] + |ws[i]| < |s| ==> !IsLower(s[ps[i] + |ws[i]|])
  }

  /** No word could take in the character before it: that one is not upper-case. */
  predicate LeftMaximal(s: string, ws: seq<string>, ps: seq<nat>)
    requires Located(s, ws, ps)
  {
    forall i :: 0 <= i < |ws| && 0 < ps[i] ==> !IsUpper(s[ps[i] - 1])
  }

  /** Every lower-case letter of `s` from position `d` on lies inside some word. */
  predicate CoversFrom(s: string, ws: seq<string>, ps: seq<nat>, d: nat)
    requires Located(s, ws, ps)
  {
    forall k :: d <= k < |s| && IsLower(s[k]) ==> exists i :: 0 <= i < |ws| && ps[i] <= k < ps[i] + |ws[i]|
  }

  /** The positions `ps`, each moved `d` characters on. */
  function Shift(ps: seq<nat>, d: nat): (r: seq<nat>)
    ensures |r| == |ps| && forall i :: 0 <= i < |ps| ==> r[i] == ps[i] + d
  {
    seq(|ps|, i requires 0 <= i < |ps| => ps[i] + d)
  }

  /** Words found in the suffix `s[d..]` sit in `s` at their positions moved `d` on. */
  lemma ShiftSpans(s: string, d: nat, ws: seq<string>, ps: seq<nat>)
    requires d <= |s|
    requires Spans(s[d..], ws, ps)
    ensures Located(s, ws, Shift(ps, d)) && InOrder(ws, Shift(ps, d))
    ensures RightMaximal(s, ws, Shift(ps, d)) && CoversFrom(s, ws, Shift(ps, d), d)
    ensures forall i :: 0 <= i < |ws| && 0 < ps[i] ==> !IsUpper(s[Shift(ps, d)[i] - 1])
  {
    ShiftLocated(s, d, ws, ps);
    ShiftRight(s, d, ws, ps);
    ShiftLeft(s, d, ws, ps);
    ShiftCovers(s, d, ws, ps);
  }

  /** Slices of the suffix are slices of `s`, `d` characters on. */
  lemma ShiftLocated(s: string, d: nat, ws: seq<string>, ps: seq<nat>)
    requires d <= |s| && Located(s[d..], ws, ps)
    ensures Located(s, ws, Shift(ps, d))
  {
    var t := s[d..];
    var qs := Shift(ps, d);
    forall i | 0 <= i < |ws|
      ensures qs[i] + |ws[i]| <= |s| && s[qs[i]..qs[i] + |ws[i]|] == ws[i]
    {
      assert s[qs[i]..qs[i] + |ws[i]|] == t[ps[i]..ps[i] + |ws[i]|];
    }
  }

  /** The character after a word of the suffix is the same character of `s`. */
  lemma ShiftRight(s: string, d: nat, ws: seq<string>, ps: seq<nat>)
    requires d <= |s| && Located(s[d..], ws, ps) && RightMaximal(s[d..], ws, ps)
    ensures Located(s, ws, Shift(ps, d)) && RightMaximal(s, ws, Shift(ps, d))
  {
    ShiftLocated(s, d, ws, ps);
    var t := s[d..];
    var qs := Shift(ps, d);
    forall i | 0 <= i < |ws| && qs[i] + |ws[i]| < |s|
      ensures !IsLower(s[qs[i] + |ws[i]|])
    {
      assert s[qs[i] + |ws[i]|] == t[ps[i] + |ws[i]|];
    }
  }

  /** The character before a word not at the front of the suffix is the same character of `s`. */
  lemma ShiftLeft(s: string, d: nat, ws: seq<string>, ps: seq<nat>)
    requires d <= |s| && Located(s[d..], ws, ps) && LeftMaximal(s[d..], ws, ps)
    ensures forall i :: 0 <= i < |ws| && 0 < ps[i] ==> !IsUpper(s[Shift(ps, d)[i] - 1])
  {
    var t := s[d..];
    var qs := Shift(ps, d);
    forall i | 0 <= i < |ws| && 0 < ps[i]
      ensures !IsUpper(s[qs[i] - 1])
    {
      assert s[qs[i] - 1] == t[ps[i] - 1];
    }
  }

  /** A lower-case letter of `s` from `d` on is one of the suffix, inside one of its words. */
  lemma ShiftCovers(s: string, d: nat, ws: seq<string>, ps: seq<nat>)
    requires d <= |s| && Located(s[d..], ws, ps) && CoversFrom(s[d..], ws, ps, 0)
    ensures Located(s, ws, Shift(ps, d)) && CoversFrom(s, ws, Shift(ps, d), d)
  {
    ShiftLocated(s, d, ws, ps);
    var t := s[d..];
    var qs := Shift(ps, d);
    forall k | d <= k < |s| && IsLower(s[k])
      ensures exists i :: 0 <= i < |ws| && qs[i] <= k < qs[i] + |ws[i]|
    {
      assert t[k - d] == s[k];
      var i :| 0 <= i < |ws| && ps[i] <= k - d < ps[i] + |ws[i]|;
    }
  }

  /**
    What `re.findall(r"([A-Z]*[a-z]+)", s)` returns: the matches are slices of
    `s`, in order and not overlapping; none could be longer at either end,
    since the character after a match is not lower-case and the one before it
    is not upper-case; and every lower-case letter of `s` lies in some match.
   */
  lemma FindWordsMatches(s: string) returns (ps: seq<nat>)
    ensures Spans(s, FindWords(s), ps)
  {
    ps := FindWordsSpans(s, FindWords(s));
  }

  /** `FindWordsMatches` for the words `ws` of `s`; a match at position 0 is the one the scan finds first. */
  lemma {:induction false} FindWordsSpans(s: string, ws: seq<string>) returns (ps: seq<nat>)
    requires ws == FindWords(s)
    ensures Spans(s, ws, ps)
    ensures 0 in ps ==> FrontMatch(s) > 0
    decreases |s|, 1
  {
    if s == [] {
      return [];
    }
    if FrontMatch(s) == 0 {
      ps := FirstSkipped(s, ws);
    } else {
      ps := FirstMatched(s, ws);
    }
  }

  /**
    The words `ws` sit at `ps` in `s` as the matches of `[A-Z]*[a-z]+` do:
    located, in order, maximal at both ends, and covering every lower-case letter.
   */
  predicate Spans(s: string, ws: seq<string>, ps: seq<nat>)
  {
    Located(s, ws, ps) && InOrder(ws, ps) && RightMaximal(s, ws, ps) && LeftMaximal(s, ws, ps)
    && CoversFrom(s, ws, ps, 0)
  }

  /** The case of `FindWordsSpans` where no match starts at the front and the scan moves on by one. */
  lemma FirstSkipped(s: string, ws: seq<string>) returns (ps: seq<nat>)
    requires s != [] && FrontMatch(s) == 0 && ws == FindWords(s)
    ensures Spans(s, ws, ps) && 0 !in ps
    decreases |s|, 0
  {
    var r := FindWords(s[1..]);
    assert ws == r;
    var rest := FindWordsSpans(s[1..], ws);
    ps := Shift(rest, 1);
    ShiftSpans(s, 1, ws, rest);
    forall i | 0 <= i < |ws| && 0 < ps[i]
      ensures !IsUpper(s[ps[i] - 1])
    {
      if rest[i] == 0 {
        assert rest[i] in rest;
      }
    }
  }

  /** The case of `FindWordsSpans` where a match `s[..e]` starts at the front and the scan resumes after it. */
  lemma FirstMatched(s: string, vs: seq<string>) returns (ps: seq<nat>)
    requires s != [] && FrontMatch(s) > 0 && vs == FindWords(s)
    ensures Spans(s, vs, ps)
    decreases |s|, 0
  {
    var e, ws := FindWordsAtMatch(s, vs);
    var rest := FindWordsSpans(s[e..], ws);
    ShiftSpans(s, e, ws, rest);
    ps := [0] + Shift(rest, e);
    ConsSpans(s, e, ws, Shift(rest, e));
  }

  /** Where a match starts at the front of `s`, it is the first word found, and the scan resumes after it. */
  lemma FindWordsAtMatch(s: string, vs: seq<string>) returns (e: nat, ws: seq<string>)
    requires s != [] && FrontMatch(s) > 0 && vs == FindWords(s)
    ensures e == FrontMatch(s) && ws == FindWords(s[e..]) && vs == [s[..e]] + ws
  {
    e := FrontMatch(s);
    ws := FindWords(s[e..]);
    var r := FindWords(s);
    assert r == [s[..e]] + ws;
  }

  /**
    A match `s[..e]` at the front, ending in a lower-case letter that the next
    character does not continue, put before the matches found after it.
   */
  lemma ConsSpans(s: string, e: nat, ws: seq<string>, qs: seq<nat>)
    requires 0 < e <= |s| && IsLower(s[e - 1]) && (e < |s| ==> !IsLower(s[e]))
    requires Located(s, ws, qs) && InOrder(ws, qs) && RightMaximal(s, ws, qs) && CoversFrom(s, ws, qs, e)
    requires forall i :: 0 <= i < |qs| ==> e <= qs[i]
    requires forall i :: 0 <= i < |ws| && e < qs[i] ==> !IsUpper(s[qs[i] - 1])
    ensures Spans(s, [s[..e]] + ws, [0] + qs)
  {
    ConsLocated(s, e, ws, qs);
    ConsInOrder(s, e, ws, qs);
    ConsRight(s, e, ws, qs);
    ConsLeft(s, e, ws, qs);
    ConsCovers(s, e, ws, qs);
  }

  /** The front match ends at `e`, where the later matches start at the earliest. */
  lemma ConsInOrder(s: string, e: nat, ws: seq<string>, qs: seq<nat>)
    requires e <= |s| && |qs| == |ws| && InOrder(ws, qs)
    requires forall i :: 0 <= i < |qs| ==> e <= qs[i]
    ensures |[0] + qs| == |[s[..e]] + ws| && InOrder([s[..e]] + ws, [0] + qs)
  {
    var all := [s[..e]] + ws;
    var ps := [0] + qs;
    forall i | 0 < i < |all|
      ensures ps[i - 1] + |all[i - 1]| <= ps[i]
    {
      assert ps[i] == qs[i - 1];
      if i > 1 {
        assert all[i - 1] == ws[i - 2] && ps[i - 1] == qs[i - 2];
      }
    }
  }

  /** The front match cannot take in `s[e]`; the later matches keep their right ends. */
  lemma ConsRight(s: string, e: nat, ws: seq<string>, qs: seq<nat>)
    requires 0 < e <= |s| && (e < |s| ==> !IsLower(s[e]))
    requires Located(s, ws, qs) && RightMaximal(s, ws, qs)
    ensures Located(s, [s[..e]] + ws, [0] + qs) && RightMaximal(s, [s[..e]] + ws, [0] + qs)
  {
    ConsLocated(s, e, ws, qs);
    var all := [s[..e]] + ws;
    var ps := [0] + qs;
    forall i | 0 <= i < |all| && ps[i] + |all[i]| < |s|
      ensures !IsLower(s[ps[i] + |all[i]|])
    {
      if i > 0 {
        assert all[i] == ws[i - 1] && ps[i] == qs[i - 1];
      }
    }
  }

  /** Only later matches have a character before them, and the one just after the front match is lower-case. */
  lemma ConsLeft(s: string, e: nat, ws: seq<string>, qs: seq<nat>)
    requires 0 < e <= |s| && IsLower(s[e - 1])
    requires Located(s, ws, qs)
    requires forall i :: 0 <= i < |qs| ==> e <= qs[i]
    requires forall i :: 0 <= i < |ws| && e < qs[i] ==> !IsUpper(s[qs[i] - 1])
    ensures Located(s, [s[..e]] + ws, [0] + qs) && LeftMaximal(s, [s[..e]] + ws, [0] + qs)
  {
    ConsLocated(s, e, ws, qs);
    var all := [s[..e]] + ws;
    var ps := [0] + qs;
    forall i | 0 <= i < |all| && 0 < ps[i]
      ensures !IsUpper(s[ps[i] - 1])
    {
      assert ps[i] == qs[i - 1];
    }
  }

  /** The front match and the later ones are all slices of `s`. */
  lemma ConsLocated(s: string, e: nat, ws: seq<string>, qs: seq<nat>)
    requires 0 < e <= |s| && Located(s, ws, qs)
    ensures Located(s, [s[..e]] + ws, [0] + qs)
  {
    var all := [s[..e]] + ws;
    var ps := [0] + qs;
    forall i | 0 <= i < |all|
      ensures ps[i] + |all[i]| <= |s| && s[ps[i]..ps[i] + |all[i]|] == all[i]
    {
      if i > 0 {
        assert all[i] == ws[i - 1] && ps[i] == qs[i - 1];
      }
    }
  }

  /** The front match covers the letters before `e`, the later matches those after. */
  lemma ConsCovers(s: string, e: nat, ws: seq<string>, qs: seq<nat>)
    requires 0 < e <= |s| && Located(s, ws, qs) && CoversFrom(s, ws, qs, e)
    ensures Located(s, [s[..e]] + ws, [0] + qs)
    ensures CoversFrom(s, [s[..e]] + ws, [0] + qs, 0)
  {
    ConsLocated(s, e, ws, qs);
    var all := [s[..e]] + ws;
    var ps := [0] + qs;
    forall k | 0 <= k < |s| && IsLower(s[k])
      ensures exists i :: 0 <= i < |all| && ps[i] <= k < ps[i] + |all[i]|
    {
      if k < e {
        assert ps[0] <= k < ps[0] + |all[0]|;
      } else {
        var i :| 0 <= i < |ws| && qs[i] <= k < qs[i] + |ws[i]|;
        assert all[i + 1] == ws[i] && ps[i + 1] == qs[i];
      }
    }
  }
}
