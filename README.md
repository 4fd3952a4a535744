# music21 braille entry layer and documentation builder, in Dafny

This project models two parts of the music21 repository and proves properties
of them.

**The braille entry layer** (`music21/braille/translate.py`) routes a music21
object to a transcriber:

- an object that is not a stream goes into a fresh Measure, transcribed with
  `inPlace` forced on;
- a Measure goes into a one-measure Part, with the heading and the first
  measure number switched off unless the caller set them;
- a Part, or a TinyNotation stream, is transcribed segment by segment;
- a stream holding exactly two PartStaffs is transcribed bar over bar;
- a Score becomes its metadata summaries followed by its Parts;
- an Opus becomes its Scores, separated by a blank line.

The braille rule engine is kept abstract. The segmenter, segment
transcription, grand segments and renotation are the fields of an `Engine`
record of functions over an abstract `Segment` type. The stream kinds form a
closed datatype.

**The documentation builder** (`buildDoc/build.py`) is modelled in two parts:

- the name tables (`DocNames.dfy`): argument signatures, the `_DOC_ORDER`
  reordering of a module's or a class's parallel name lists, and the kind,
  privacy and locality filters of `getNames`;
- the reStructuredText writer (`RstWriter.dfy`): headings, paragraphs, bullet
  lists, parent references, the inheritance line, the docstring formatter, and
  the page name a module gets.

What `inspect`, `dir()` and `eval` report is given as plain `Attribute`
records.

Files:

- `Wrappers.dfy`: `Option` and `Result`.
- `Text.dfy`: strings, with Python's `join`, `split`, `strip`, ASCII case
  mapping and `sorted`.
- `Seqs.dfy`: sequence lemmas, plus the `Without` and `Realign` helpers used to
  take names out of a supply.
- `Braille.dfy` and `BrailleProperties.dfy`: the braille entry layer.
- `DocNames.dfy` and `RstWriter.dfy`: the documentation builder.

Where the source runs a loop, the model is a `method` with a loop, proved
equal to a function. The properties are lemmas about that function. The two
partitioned tables are classes whose `Sort` overwrites their fields.

## Model

| member | source | states |
|---|---|---|
| BrailleTranslate.TranslateArgs | music21/braille/translate.py:282-291 | `inPlace` and `debug` are each `False` when absent and otherwise the caller's value, unchanged |
| BrailleTranslate.MeasureKeywords | music21/braille/translate.py:227-237 | `showHeading` and `showFirstMeasureNumber` default to `False` only when the caller did not pass them; `inPlace` becomes `True`; every other keyword is passed through unchanged; the keys are the old keys plus those three |
| BrailleProperties.MeasureKeywordsIdempotent | music21/braille/translate.py:228-237 | settling the measure keywords a second time changes nothing |
| BrailleTranslate.ElementsOfClass | music21/braille/translate.py:156 | `getElementsByClass` keeps only instances of the class and never more elements than it was given |
| BrailleTranslate.ElementsOfClassCount | music21/braille/translate.py:156 | every instance of the class is kept as often as it occurs in the stream, and nothing else is kept |
| BrailleTranslate.ElementsOfClassMembership | music21/braille/translate.py:156 | an element is found exactly when it is in the stream and is an instance of the class |
| BrailleTranslate.ElementsOfClassAppend | music21/braille/translate.py:156 | the instances found in two streams' elements placed one after the other are those of the first, then those of the second, so stream order is kept |
| BrailleTranslate.GetElementsByClass | music21/braille/translate.py:156 | the one-pass scan returns exactly the instances of the class, in stream order |
| BrailleTranslate.SegmentTexts | music21/braille/translate.py:248-255 | exactly one entry per segment, in segment order: the transcription, or the segment's trace under `debug` |
| BrailleTranslate.PartToBraille | music21/braille/translate.py:240-256 | the loop builds what `PartBraille` specifies: renotate unless `inPlace`, segment, then join the per-segment texts with line breaks |
| BrailleProperties.PartLinesAreSegments | music21/braille/translate.py:248-256 | when no segment text holds a line break, the lines of a part's braille are the segment texts, one per segment, in order |
| BrailleTranslate.Zip | music21/braille/translate.py:273 | `zip` pairs by index and has as many pairs as the shorter sequence has elements |
| BrailleTranslate.GrandTexts | music21/braille/translate.py:273-278 | one entry per (upper, lower) pair: the grand segment's transcription, or its trace under `debug` |
| BrailleTranslate.KeyboardPartsToBraille | music21/braille/translate.py:258-279 | the loop builds what `KeyboardBraille` specifies: both staffs segmented, their segments paired by index and joined with line breaks |
| BrailleProperties.KeyboardLinesPairSegments | music21/braille/translate.py:270-279 | line `i` is the grand segment of the `i`th upper and `i`th lower segment, and there are as many lines as the shorter staff has segments; surplus segments are dropped without error |
| BrailleProperties.KeyboardDebugLines | music21/braille/translate.py:273-279 | under `debug`, line `i` is the trace of the `i`th grand segment, with the same pairing and count |
| BrailleProperties.KeyboardNoPairs | music21/braille/translate.py:270-279 | when either staff has no segments, `zip` yields no pair, so the keyboard braille is empty and no error is raised |
| BrailleTranslate.AppendMetadataLines | music21/braille/translate.py:170-171 | the first loop of `scoreToBraille` appends one summary per metadata object, in order |
| BrailleTranslate.AppendPartLines | music21/braille/translate.py:172-174 | the second loop appends one transcription per part, in order |
| BrailleTranslate.ScoreToBraille | music21/braille/translate.py:165-175 | the method builds what `ScoreBraille` specifies |
| BrailleProperties.ScoreMetadataThenParts | music21/braille/translate.py:169-175 | a score's braille is every metadata summary, then every part, with a single line break between the last summary and the first part |
| BrailleProperties.MetadataTextsPointwise | music21/braille/translate.py:170-171 | summary `i` is the summary of metadata object `i`, one per object |
| BrailleProperties.PartTextsPointwise | music21/braille/translate.py:172-174 | text `i` is the braille of part `i`, one per part |
| BrailleProperties.ScoreTextsPointwise | music21/braille/translate.py:203-204 | text `i` is the braille of score `i`, one per score |
| BrailleTranslate.OpusToBraille | music21/braille/translate.py:198-205 | the method builds what `OpusBraille` specifies: the scores' braille joined by blank lines |
| BrailleProperties.OpusLastScore | music21/braille/translate.py:202-205 | an opus's braille ends with its last score, set off from the scores before it by exactly one blank line |
| BrailleProperties.OpusOfOneScore | music21/braille/translate.py:202-205 | an opus with one score reads exactly as that score |
| BrailleTranslate.MeasureToBraille | music21/braille/translate.py:207-238 | the method, updating its keyword map in place, builds what `MeasureBraille` specifies |
| BrailleTranslate.StreamBraille | music21/braille/translate.py:147-163 | the dispatch order: Part or TinyNotation first, then Measure, then exactly two PartStaffs (ahead of Score and Opus), then Score, then Opus; any other stream is refused, and so is a non-stream |
| BrailleTranslate.StreamToBraille | music21/braille/translate.py:147-163 | the method's chain of tests gives what `StreamBraille` specifies |
| BrailleProperties.PartWinsOverKeyboard | music21/braille/translate.py:152-158 | a Part holding two PartStaffs is still transcribed as a Part, never by the keyboard path |
| BrailleTranslate.ObjectBraille | music21/braille/translate.py:98-145 | an object is refused exactly when it is a stream that `streamToBraille` refuses; it is never refused as a non-stream |
| BrailleTranslate.ObjectToBraille | music21/braille/translate.py:139-145 | the method, wrapping a non-stream in a Measure and forcing `inPlace`, gives what `ObjectBraille` specifies |
| BrailleProperties.ObjectInMeasureAsItStands | music21/braille/translate.py:141-145 | a non-stream is transcribed as a Part holding a Measure holding it, with `inPlace` forced on; renotation is never consulted, and the caller's own `inPlace` makes no difference |
| BrailleTranslate.UpperRun | music21/braille/translate.py:194 | the `[A-Z]*` part of a match: the longest run of ASCII capitals at the front |
| BrailleTranslate.LowerRun | music21/braille/translate.py:194 | the `[a-z]+` part of a match: the longest run of ASCII lower-case letters at the front |
| BrailleTranslate.FindWordsAreWords | music21/braille/translate.py:194 | every word `re.findall(r"([A-Z]*[a-z]+)", key)` returns matches the pattern |
| BrailleProperties.FindWordsMatches | music21/braille/translate.py:194 | the words are slices of the key, in order and not overlapping; none could be longer, because the character after it is not lower-case and the one before it is not upper-case; every lower-case letter of the key lies inside one of them |
| BrailleProperties.WordIsLetters | music21/braille/translate.py:194 | a match is a non-empty run of ASCII letters |
| BrailleTranslate.TitleCase | music21/braille/translate.py:195 | `title()` keeps the length of the string |
| BrailleProperties.TitleCaseFree | music21/braille/translate.py:195 | `title()` never produces a character that is not a letter unless it was already there |
| BrailleProperties.TitleCaseLetterRun | music21/braille/translate.py:195 | `title()` of a letter run capitalises its first letter (unless a letter precedes it) and lowers the rest |
| BrailleProperties.TitleCaseWords | music21/braille/translate.py:194-195 | `title()` of space-joined words capitalises each word |
| BrailleTranslate.Capitalize | music21/braille/translate.py:195 | a word with its first letter upper-cased and the rest lower-cased |
| BrailleTranslate.CapitalizeAll | music21/braille/translate.py:195 | each word capitalised, in order |
| BrailleProperties.WorkIdLineWords | music21/braille/translate.py:194-195 | a work-id line is the key's words, each capitalised, separated by spaces, then ": " and the value |
| BrailleProperties.WorkIdLineSingle | music21/braille/translate.py:195 | a work-id line has no line break when its value has none |
| BrailleProperties.MetadataLinesMembership | music21/braille/translate.py:191-195 | a line is produced exactly when some work id whose value is not `None` produces it |
| BrailleProperties.MetadataLinesAppend | music21/braille/translate.py:191-195 | the lines of two halves of the dictionary are the first half's lines, then the second half's |
| BrailleProperties.MetadataLinesPermute | music21/braille/translate.py:191-195 | reordering the work ids only reorders the lines |
| BrailleProperties.MetadataOrderIndependent | music21/braille/translate.py:196 | the summary does not depend on the dictionary's iteration order, because the lines are sorted before being joined |
| BrailleProperties.MetadataStringLines | music21/braille/translate.py:190-196 | when no value holds a line break and some value is not `None`, the lines of the summary are the work-id lines in sorted order |
| BrailleTranslate.MetadataToString | music21/braille/translate.py:177-196 | the loop builds what `MetadataString` specifies |
| DocNames.NamesOf | buildDoc/build.py:185-186 | name `i` of the table is the name of attribute `i` |
| DocNames.SignatureOf | buildDoc/build.py:128-156 | a method or function gets a parenthesised argument list; a property or data gets ''; any other kind leaves the message unbound, an error |
| DocNames.GetSignature | buildDoc/build.py:128-156 | the loop over the arguments builds what `SignatureOf` specifies |
| DocNames.SignatureWithoutDefaults | buildDoc/build.py:140-151 | without defaults the entries are the argument names in declaration order, with `self` left out |
| DocNames.SignatureDefaults | buildDoc/build.py:133-151 | for a function without `self`: with `k` defaults, the first `n-k` arguments appear bare and exactly the last `k` appear as `arg=default`, each with its own default |
| DocNames.MethodSignatureDefaults | buildDoc/build.py:133-151 | for a method whose first argument is `self`: `self` is left out, the arguments keep their order, the ones before the defaults appear bare and exactly the last `k` appear as `arg=default`, each with its own default |
| DocNames.LoadEntries | buildDoc/build.py:119-123 | the documented signature of `MeterSequence.load`: `value, partitionRequest=None, autoWeight=False, targetWeight=None` |
| DocNames.ModuleKind | buildDoc/build.py:281-288 | the module kind aliases (classes/class, modules/imports/module, functions/function, data/attributes/attribute) map to one kind; anything else passes through |
| DocNames.ModuleNamesShownMembership | buildDoc/build.py:290-311 | a name is listed exactly when an entry of that name is local (when asked), public (no leading `_`, no `Test`, no `Exception`, when asked) and of that kind |
| DocNames.PartitionedModule.GetNames | buildDoc/build.py:269-311 | the loop lists what `ModuleNamesShown` specifies, in table order |
| DocNames.PartitionedModule.GetElement | buildDoc/build.py:260-266 | a held name gives its own data; any other name is an error |
| DocNames.PartitionedModule.constructor | buildDoc/build.py:163-186 | the table holds the `dir()` names with their data, aligned |
| DocNames.TakeOrdered | buildDoc/build.py:241-248 | the first loop of `_sort` succeeds exactly when every ordered name is held once; it takes the ordered names out of the supply, with their data; a missing one raises |
| DocNames.AppendRest | buildDoc/build.py:250-254 | the second loop appends the remaining names in their old order, each with its own data |
| DocNames.ArrangeModuleNames | buildDoc/build.py:236-257 | the ordered names first, in order, then the rest in their old order; a permutation of the old names, with the data permuted in lockstep; a missing ordered name raises |
| DocNames.PartitionedModule.Sort | buildDoc/build.py:236-257 | `_sort` rewrites the fields to the arrangement above and keeps the table aligned; on error the table is unchanged |
| DocNames.SortedTableValid | buildDoc/build.py:236-257 | the rearranged names are distinct, a permutation of the old ones, and each keeps its own data |
| DocNames.ClassKind | buildDoc/build.py:583-588 | the class kind aliases (properties/property, methods/method, data/attributes/attribute) map to one kind; anything else passes through |
| DocNames.ClassNamesShownMembership | buildDoc/build.py:590-610 | a name is listed exactly when an entry of that name passes the privacy rule (`__init__` only with `getInit`), has that kind, and is defined at the requested MRO index, if one is given |
| DocNames.ClassNamesByMroIndex | buildDoc/build.py:604-609 | an attribute is listed under the MRO index where it is defined exactly when it is listed with no index |
| DocNames.PartitionedClass.GetNames | buildDoc/build.py:548-610 | the loop lists what `ClassNamesShown` specifies, in table order |
| DocNames.PartitionedClass.GetElement | buildDoc/build.py:490-504 | a held name gives its own data; any other name is an error |
| DocNames.PartitionedClass.FindMroIndex | buildDoc/build.py:464-476 | the MRO index stored beside the name |
| DocNames.PartitionedClass.constructor | buildDoc/build.py:328-372 | the three lists describe the same names in the same order, each with its MRO index |
| DocNames.Placed | buildDoc/build.py:393-395 | the ordered names `_sort` places itself never include a substring of `__init__` |
| DocNames.Forced | buildDoc/build.py:385-391 | `__init__` is placed first exactly when the class has it |
| DocNames.ForcedThenPlaced | buildDoc/build.py:385-395 | putting `__init__` first never repeats a name placed from the order |
| DocNames.PlacedAppend | buildDoc/build.py:393-402 | placement works name by name over the order |
| DocNames.TakeForced | buildDoc/build.py:385-391 | the first loop takes `__init__` out of the supply, with its MRO index and data |
| DocNames.TakeClassOrdered | buildDoc/build.py:385-402 | the first two loops succeed exactly when every placed name is held once; they place `__init__`, then the ordered names that are not substrings of `__init__`, each with its MRO index and data |
| DocNames.AppendClassRest | buildDoc/build.py:404-409 | the last loop appends the remaining names in their old order, each with its MRO index and data |
| DocNames.ArrangeClassNames | buildDoc/build.py:375-413 | `__init__` first, then the placed ordered names, then the rest in their old order; a permutation with the three lists kept aligned; a missing ordered name raises |
| DocNames.PartitionedClass.Sort | buildDoc/build.py:375-413 | `_sort` rewrites the three fields to the arrangement above; on error the table is unchanged |
| DocNames.SortedClassTableValid | buildDoc/build.py:375-413 | the rearranged class table is distinct, a permutation, and index-aligned across names, MRO indices and data |
| RstWriter.Spaces | buildDoc/build.py:623 | `' ' * n` is `n` spaces |
| RstWriter.Repeat | buildDoc/build.py:628 | `s * n` is `n` times as long as `s` |
| RstWriter.RepeatChar | buildDoc/build.py:628 | every character of a repeated one-character string is that character |
| RstWriter.Heading | buildDoc/build.py:620-630 | four pieces, each behind `indent` spaces: the title, a newline, an underline of `len(line)` repetitions of `headingChar`, and a blank line |
| RstWriter.HeadingUnderlined | buildDoc/build.py:620-630 | with a one-character `headingChar`, the underline is as long as the title and made of that character only |
| RstWriter.Para | buildDoc/build.py:632-642 | `None` gives nothing; a text gives a stripped piece of it between two blank-line separators |
| RstWriter.ParaReread | buildDoc/build.py:632-642 | a rendered paragraph read back as a docstring renders the same |
| RstWriter.Bullets | buildDoc/build.py:648-652 | three pieces per item |
| RstWriter.BulletsAt | buildDoc/build.py:648-652 | item `k`'s bullet sits at pieces `3k` to `3k+2`: marker, stripped item, newline |
| RstWriter.List | buildDoc/build.py:644-654 | the loop emits one bullet per item in list order, then a closing newline |
| RstWriter.FormatParent | buildDoc/build.py:656-673 | a built-in class is shown by its bare name, any other as a `:class:` reference to `module.Class` |
| RstWriter.FormatParentNames | buildDoc/build.py:656-673 | the reference names the class, and the module-qualified name when it is not built in |
| RstWriter.Parents | buildDoc/build.py:700-703 | one formatted parent per MRO entry |
| RstWriter.ParentsAt | buildDoc/build.py:700-703 | parent `k` is MRO entry `k`, formatted |
| RstWriter.ParentsBetween | buildDoc/build.py:699-703 | the loop formats every MRO entry except the first and the last, in order |
| RstWriter.FormatClassInheritance | buildDoc/build.py:685-707 | "inherits from: " and the comma-joined parents between the first and last MRO entries; '' exactly when the MRO has fewer than 3 entries |
| RstWriter.InheritanceNamesParents | buildDoc/build.py:697-707 | every MRO entry strictly between the first and the last is named in the inheritance line |
| RstWriter.OmitAtFirst | buildDoc/build.py:725-727 | no line before the cut-off carries `OMIT_FROM_DOCS`, and the line at it does |
| RstWriter.OmitAtUnique | buildDoc/build.py:725-727 | the cut-off is the only position with that property |
| RstWriter.GatherLines | buildDoc/build.py:723-742 | the first loop gathers exactly the cooked lines before the first line carrying the omit marker |
| RstWriter.GatheredAt | buildDoc/build.py:729-742 | every line before the marker is gathered, one for one and in order: an `.. image::` line verbatim behind "\n\n", a `:width:` line verbatim behind "\n", any other line stripped |
| RstWriter.OmitCutsRest | buildDoc/build.py:725-727 | whatever follows the first marked line, nothing of it is gathered |
| RstWriter.MarkBreaks | buildDoc/build.py:744-753 | the second loop makes the pieces `Marks` specifies |
| RstWriter.NonEmpty | buildDoc/build.py:750-753 | the kept lines are all non-empty |
| RstWriter.MarksKeepText | buildDoc/build.py:744-753 | the second loop keeps every non-empty line and only those, in order; a blank line becomes a break or disappears |
| RstWriter.MarksBreakIff | buildDoc/build.py:748-749 | some paragraph break is made exactly when some blank line directly follows another blank line |
| RstWriter.MarksBreakCount | buildDoc/build.py:744-753 | one paragraph break per blank line that directly follows another blank line, and no other break |
| RstWriter.RenderPieces | buildDoc/build.py:755-773 | the third loop renders each piece with the `inExamples` flag as it stood before it, between the leading indent and the final newline |
| RstWriter.SeenExampleIff | buildDoc/build.py:756-763 | the `inExamples` flag is set exactly when an earlier line starts with `>>>` |
| RstWriter.RenderedAt | buildDoc/build.py:757-772 | piece `k` is rendered with the flag as it stood before it |
| RstWriter.ExampleSpacing | buildDoc/build.py:760-766 | the first `>>>` line is preceded by "\n\n" and every later one by "\n" |
| RstWriter.FormatDocString | buildDoc/build.py:710-775 | split, gather up to the marker, mark breaks and render: what `DocText` specifies |
| RstWriter.DocTextShape | buildDoc/build.py:716-775 | `None` gives ''; any docstring gives text that starts with the indent and ends with a newline |
| RstWriter.DocTextOmits | buildDoc/build.py:723-727 | no text from the first line carrying `OMIT_FROM_DOCS` onward reaches the output, including when that line is the first |
| RstWriter.DocTextOmitsAll | buildDoc/build.py:723-727 | a docstring whose first line carries the marker renders exactly as the empty docstring does |
| RstWriter.DocTextOfLines | buildDoc/build.py:723-742 | a docstring is rendered from exactly its lines |
| RstWriter.Capitalize | buildDoc/build.py:881 | the first character upper-cased, the rest kept |
| RstWriter.FileRef | buildDoc/build.py:880-881 | the page name is `module` plus the second dotted part of the module name, capitalised; a name without a second part, or with an empty one, raises |
| RstWriter.FileRefOfParts | buildDoc/build.py:880-881 | only the second dotted part matters: `music21.note` and `music21.note.extra` name the same page |

## Left out

- The braille rule engine (`segment.findSegments`, `BrailleSegment.transcribe`, `BrailleGrandSegment`, the symbol tables, and the octave, chord, slur and line-wrap rules) is not part of this model. It is the abstract `Engine`, so no braille glyph appears.
- `makeNotation` is an uninterpreted field of `Engine`. `isinstance` and the class hierarchy are the closed `Music21Object` datatype.
- `AlignmentError` and `EncodingError` are never raised by the modelled code and are not modelled.
- Python `unicode()` of a transcription is the identity here: transcriptions are already strings.
- The `keywords` dictionary is a `map` value. `objectToBraille` and `measureToBraille` assign into it, and the methods do so on a local copy. Aliasing of a caller's dictionary is not modelled.
- `getDoc`, `getElement` of the base `PartitionedName`, `getDefiningClass`, `getClassFromMroIndex`, `mroIndices` and `lastMroIndex` are not modelled.
- `_fillData`, `_fillDataLive` and `_createMroLive` are not modelled: they read live objects through `eval`, `inspect` and `dir()`, and their output is the constructors' input.
- `formatXRef`, the `ClassDoc`, `ModuleDoc` and `Documentation` page assembly, `updateDirs`, the file writes, and the sphinx and browser launch in `main` are not modelled. They are I/O and reflection.
- `music21/webapps/templates.py` and `music21/ipython21/ipyJSapp.py` are not part of this model.
- DocNames.PartitionedModule.constructor: it does not call `_sort`. The model exposes `Sort` as a separate method, so a constructed table is the unsorted one.
- DocNames.PartitionedClass.constructor: it does not call `_sort`, for the same reason.
- The class spelled `PartitioinedModule` in the source is named `PartitionedModule` here.
- DocNames.SignatureOf: default values are taken as text already rendered by `%s`. `inspect.getargspec` is not modelled.
- DocNames.Placed: the substring test of line 394 (`name in '__init__'`) is modelled as written, so `_sort` also skips ordered names like `init` or `_`.
- Python's `str.strip`, `lower` and `upper` are modelled over ASCII only. The regular expression engine and Unicode `title()` are specified directly over ASCII letters.
- Python's default arguments are not modelled: `_heading` (`headingChar='='`, `indent=0`, buildDoc/build.py:620), `_list` (`indent=''`, :644) and `formatDocString` (`indent=''`, :710) take every argument explicitly. A call that relies on a default, such as `self._heading(classNameStr, '-')` at buildDoc/build.py:819 or `self.formatDocString(docRaw)` at :889, corresponds to passing the default value (`0` or `''`) itself, so no behaviour is lost.
- RstWriter.HeadingUnderlined: it covers a one-character `headingChar` only. `Heading` itself takes any string, and its underline is `len(line)` copies of that string.
- RstWriter.Para: it states the stripped text is a substring of the docstring, with no surrounding whitespace. The full `strip` characterisation is the `Text.Strip` contract.
- `doc` of `None` is `Option.None`. An IndexError in the `fileRef` computation is an `Err` result.
- The loops of `_sort`, `scoreToBraille`, `formatDocString` and `formatClassInheritance` are split into one method per loop. Each method is proved against the same function the whole operation is.
