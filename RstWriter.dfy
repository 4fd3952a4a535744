/**
  The text-formatting half of the documentation builder (`buildDoc/build.py`):
  the `RestructuredWriter` helpers that turn headings, paragraphs, lists,
  class hierarchies and docstrings into reStructuredText pieces, and the
  derivation of a module's reference name (`ModuleDoc.fileRef`).

  The writer's methods return lists of strings (`msg`) that callers later
  concatenate; they are modelled as `seq<string>`, and `''.join` as
  `Join(_, "")`.
 */
module RstWriter {
  import opened Wrappers
  import opened Text
  import opened Seqs

  /** The indentation the class and module pages use (`INDENT`). */
  const Indent: string := "    "

  /** The marker that cuts a docstring short (`OMIT_STR`). */
  const OmitStr: string := "OMIT_FROM_DOCS"

  /** The docstring line prefixes that are kept without stripping. */
  const ImageStub: string := ".. image::"
  const WidthStub: string := ":width:"

  /** `' ' * n` */
  function Spaces(n: nat): (r: string)
    ensures |r| == n
    ensures forall i :: 0 <= i < |r| ==> r[i] == ' '
    ensures AllSpace(r)
  {
    if n == 0 then "" else Spaces(n - 1) + " "
  }

  /** `s * n` for a string. */
  function Repeat(s: string, n: nat): (r: string)
    ensures |r| == |s| * n
  {
    if n == 0 then "" else Repeat(s, n - 1) + s
  }

  /** Repeating a one-character string gives that character at every position. */
  lemma {:induction false} RepeatChar(c: char, n: nat, k: nat)
    requires k < n
    ensures Repeat([c], n)[k] == c
  {
    if k < n - 1 {
      RepeatChar(c, n - 1, k);
    }
  }

  // ---------------------------------------------------------------------------
  // _heading, _para, _list

  /**
    `_heading(line, headingChar, indent)`: the title, a newline, an underline
    of `len(line)` copies of `headingChar`, and a blank line, each piece
    prefixed by `indent` spaces.
   */
  function Heading(line: string, headingChar: string, indent: nat): (r: seq<string>)
    ensures |r| == 4
    ensures forall k :: 0 <= k < 4 ==> |r[k]| >= indent && r[k][..indent] == Spaces(indent)
    ensures r[0][indent..] == line
    ensures r[1][indent..] == "\n" && r[3][indent..] == "\n\n"
    ensures r[2][indent..] == Repeat(headingChar, |line|)
  {
    var pad := Spaces(indent);
    [pad + line, pad + "\n", pad + Repeat(headingChar, |line|), pad + "\n\n"]
  }

  /**
    With a one-character `headingChar`, as every caller passes, the underline
    is exactly as long as the title and made of that character only, which is
    what reStructuredText requires of a section title.
   */
  lemma HeadingUnderlined(line: string, c: char, indent: nat)
    ensures |Heading(line, [c], indent)[2]| == |Heading(line, [c], indent)[0]|
    ensures forall k :: indent <= k < |Heading(line, [c], indent)[2]| ==> Heading(line, [c], indent)[2][k] == c
  {
    var r := Heading(line, [c], indent);
    var bar := Repeat([c], |line|);
    assert r[2] == Spaces(indent) + bar;
    forall k | indent <= k < |r[2]|
      ensures r[2][k] == c
    {
      RepeatChar(c, |line|, k - indent);
    }
  }

  /**
    `_para(doc)`: nothing for `None`; otherwise the stripped text between two
    blank-line separators.
   */
  function Para(doc: Option<string>): (r: seq<string>)
    ensures doc.None? <==> r == []
    ensures doc.Some? ==> |r| == 3 && r[0] == "\n\n" && r[2] == "\n\n"
    ensures doc.Some? ==> r[1] == [] || (!IsSpace(r[1][0]) && !IsSpace(r[1][|r[1]| - 1]))
    ensures doc.Some? ==> Contains(doc.value, r[1])
  {
    match doc
    case None => []
    case Some(text) =>
      var body := Strip(text);
      ContainsAt(text, body, LeadingSpace(text));
      ["\n\n", body, "\n\n"]
  }

  /**
    A rendered paragraph, read back as a docstring, gives the same paragraph:
    the blank lines `_para` adds around the text are exactly what `strip`
    removes again.
   */
  lemma ParaReread(doc: string)
    ensures Para(Some(Join(Para(Some(doc)), ""))) == Para(Some(doc))
  {
    var body := Strip(doc);
    var block := Join(Para(Some(doc)), "");
    assert Join([body, "\n\n"], "") == body + "" + "\n\n";
    assert block == "\n\n" + "" + (body + "" + "\n\n");
    assert block == "\n\n" + body + "\n\n";
    assert AllSpace("\n\n");
    StripPadded("\n\n", body, "\n\n");
  }

  /** One bullet of `_list`: the marker, the stripped item, a newline. */
  function Bullet(item: string, indent: string): seq<string>
  {
    [indent + "+ ", Strip(item), "\n"]
  }

  /** The bullets of `items`, in order. */
  function Bullets(items: seq<string>, indent: string): (r: seq<string>)
    ensures |r| == 3 * |items|
  {
    if items == [] then [] else Bullets(items[..|items| - 1], indent) + Bullet(items[|items| - 1], indent)
  }

  /**
    `_list(elementList, indent)`: one bullet per item, in the list's order,
    then a closing blank line.
   */
  method List(items: seq<string>, indent: string) returns (msg: seq<string>)
    ensures msg == Bullets(items, indent) + ["\n"]
  {
    msg := [];
    for i := 0 to |items|
      invariant msg == Bullets(items[..i], indent)
    {
      PrefixOfPrefix(items, i);
      var item := Strip(items[i]);
      msg := msg + [indent + "+ "];
      msg := msg + [item];
      msg := msg + ["\n"];
    }
    PrefixAll(items);
    msg := msg + ["\n"];
  }

  /** The bullet of item `k` sits at positions `3k`, `3k+1`, `3k+2`. */
  lemma {:induction false} BulletsAt(items: seq<string>, indent: string, k: nat)
    requires k < |items|
    ensures Bullets(items, indent)[3 * k..3 * k + 3] == Bullet(items[k], indent)
  {
    var init := items[..|items| - 1];
    assert Bullets(items, indent) == Bullets(init, indent) + Bullet(items[|items| - 1], indent);
    if k < |items| - 1 {
      BulletsAt(init, indent, k);
    }
  }

  // ---------------------------------------------------------------------------
  // formatParent, formatClassInheritance

  /** An entry of a class's method resolution order: its module and its name. */
  datatype ClassRef = ClassRef(moduleName: string, className: string)

  const BuiltinModule: string := "__builtin__"

  /**
    `formatParent(mroEntry)`: a built-in class by its bare name, any other as
    a `:class:` cross-reference to `module.Class`.
   */
  function FormatParent(entry: ClassRef): (r: string)
    ensures entry.moduleName == BuiltinModule ==> r == entry.className
    ensures entry.moduleName != BuiltinModule ==>
              |r| > 9 && StartsWith(r, ":class:`") && r[|r| - 1] == '`'
              && r[8..|r| - 1] == entry.moduleName + "." + entry.className
  {
    if entry.moduleName == BuiltinModule then entry.className
    else ":class:`" + entry.moduleName + "." + entry.className + "`"
  }

  /** The parent's qualified name, or its bare name when built in, appears in the reference. */
  lemma FormatParentNames(entry: ClassRef)
    ensures entry.moduleName != BuiltinModule ==>
              Contains(FormatParent(entry), entry.moduleName + "." + entry.className)
    ensures Contains(FormatParent(entry), entry.className)
  {
    var r := FormatParent(entry);
    var q := entry.moduleName + "." + entry.className;
    if entry.moduleName == BuiltinModule {
      ContainsAt(r, entry.className, 0);
    } else {
      ContainsAt(r, q, 8);
      ContainsAt(r, entry.className, 8 + |entry.moduleName| + 1);
    }
  }

  /** `formatParent` applied to each entry, in order. */
  function Parents(entries: seq<ClassRef>): (r: seq<string>)
    ensures |r| == |entries|
  {
    if entries == [] then []
    else Parents(entries[..|entries| - 1]) + [FormatParent(entries[|entries| - 1])]
  }

  /** Entry `k` of `Parents` is the formatted entry `k`. */
  lemma {:induction false} ParentsAt(entries: seq<ClassRef>, k: nat)
    requires k < |entries|
    ensures Parents(entries)[k] == FormatParent(entries[k])
  {
    if k < |entries| - 1 {
      ParentsAt(entries[..|entries| - 1], k);
    }
  }

  /**
    What `formatClassInheritance` promises: nothing when the MRO has no entry
    between the class itself and `object`, otherwise the entries strictly
    between the first and the last, formatted and comma-separated.
   */
  function InheritanceText(mro: seq<ClassRef>): string
  {
    if |mro| < 3 then "" else "inherits from: " + Join(Parents(mro[1..|mro| - 1]), ", ")
  }

  /**
    `formatClassInheritance(mro)`: the loop over the MRO skips the first entry
    (the class itself) and the last (`object`); with nothing left, there is no
    inheritance line.
   */
  method FormatClassInheritance(mro: seq<ClassRef>) returns (r: string)
    ensures r == InheritanceText(mro)
    ensures r == "" <==> |mro| < 3
  {
    var sub := ParentsBetween(mro);
    if |sub| == 0 {
      return "";
    }
    var parents := Join(sub, ", ");
    r := Join(["inherits from:", parents], " ");
    assert ["inherits from:", parents][1..] == [parents];
    assert Join([parents], " ") == parents;
  }

  /** The loop of `formatClassInheritance`: format every entry but the first and the last. */
  method ParentsBetween(mro: seq<ClassRef>) returns (sub: seq<string>)
    ensures |mro| < 2 ==> sub == []
    ensures |mro| >= 2 ==> sub == Parents(mro[1..|mro| - 1])
  {
    sub := [];
    var i := 0;
    while i < |mro|
      invariant 0 <= i <= |mro|
      invariant i <= 1 ==> sub == []
      invariant 1 <= i < |mro| ==> sub == Parents(mro[1..i])
      invariant i == |mro| >= 2 ==> sub == Parents(mro[1..|mro| - 1])
    {
      if i == 0 {
        // the class itself
      } else if i == |mro| - 1 {
        // object
      } else {
        SliceOfSlice(mro, 1, i);
        sub := sub + [FormatParent(mro[i])];
      }
      i := i + 1;
    }
  }

  /**
    Every class strictly between the first and the last MRO entry is named in
    the inheritance line.
   */
  lemma InheritanceNamesParents(mro: seq<ClassRef>, k: nat)
    requires 0 < k < |mro| - 1
    ensures Contains(InheritanceText(mro), FormatParent(mro[k]))
  {
    var middle := mro[1..|mro| - 1];
    var shown := Parents(middle);
    var a, b := JoinPiece(shown, ", ", k - 1);
    ParentsAt(middle, k - 1);
    assert middle[k - 1] == mro[k];
    var x := FormatParent(mro[k]);
    var lead := "inherits from: ";
    assert InheritanceText(mro) == lead + (a + x + b);
    ConcatAssoc(lead, a + x, b);
    ConcatAssoc(lead, a, x);
    ContainsMiddle(lead + a, x, b);
  }

  /** Piece `k` of a join sits between some prefix and suffix of it. */
  lemma {:induction false} JoinPiece(xs: seq<string>, sep: string, k: nat) returns (a: string, b: string)
    requires k < |xs|
    ensures Join(xs, sep) == a + xs[k] + b
  {
    if |xs| == 1 {
      a, b := "", "";
    } else if k == 0 {
      a, b := "", sep + Join(xs[1..], sep);
    } else {
      var a', b' := JoinPiece(xs[1..], sep, k - 1);
      a, b := xs[0] + sep + a', b';
    }
  }

  // ---------------------------------------------------------------------------
  // formatDocString

  /** `OMIT_STR in line.strip()` */
  predicate HasOmit(line: string)
  {
    Contains(Strip(line), OmitStr)
  }

  /**
    How the first loop keeps one docstring line: an image directive or its
    width option unstripped behind two or one newlines, anything else stripped.
   */
  function Cook(line: string): string
  {
    var s := Strip(line);
    if StartsWith(s, ImageStub) then "\n\n" + line
    else if StartsWith(s, WidthStub) then "\n" + line
    else s
  }

  /** `Cook` applied to each line, in order. */
  function CookAll(lines: seq<string>): (r: seq<string>)
    ensures |r| == |lines|
  {
    if lines == [] then [] else CookAll(lines[..|lines| - 1]) + [Cook(lines[|lines| - 1])]
  }

  /** The position of the first line carrying the omit marker, or the number of lines. */
  function OmitAt(lines: seq<string>): (n: nat)
    ensures n <= |lines|
  {
    FirstWhere(lines, HasOmit)
  }

  /** No line before `OmitAt` carries the marker, and the line at it does. */
  lemma OmitAtFirst(lines: seq<string>)
    ensures forall k :: 0 <= k < OmitAt(lines) ==> !HasOmit(lines[k])
    ensures OmitAt(lines) < |lines| ==> HasOmit(lines[OmitAt(lines)])
  {
    FirstWhereFirst(lines, HasOmit);
  }

  /** The lines the first loop gathers: every line before the omit marker, cooked. */
  function Gathered(lines: seq<string>): seq<string>
  {
    CookAll(lines[..OmitAt(lines)])
  }

  /** The first loop of `formatDocString`: gather lines until the omit marker. */
  method GatherLines(lines: seq<string>) returns (sub: seq<string>)
    ensures sub == Gathered(lines)
  {
    sub := [];
    var i := 0;
    while i < |lines|
      invariant i <= OmitAt(lines)
      invariant sub == CookAll(lines[..i])
    {
      if HasOmit(lines[i]) {
        OmitAtHere(lines, i);
        break;
      }
      OmitAtNotYet(lines, i);
      PrefixOfPrefix(lines, i);
      sub := sub + [Cook(lines[i])];
      i := i + 1;
    }
    assert i == OmitAt(lines);
  }

  /** An unmarked line at or before the marker is before it. */
  lemma OmitAtNotYet(lines: seq<string>, i: nat)
    requires i < |lines| && i <= OmitAt(lines) && !HasOmit(lines[i])
    ensures i < OmitAt(lines)
  {
    OmitAtFirst(lines);
  }

  /** A marked line at or before the marker is the marker. */
  lemma OmitAtHere(lines: seq<string>, i: nat)
    requires i < |lines| && i <= OmitAt(lines) && HasOmit(lines[i])
    ensures i == OmitAt(lines)
  {
    OmitAtFirst(lines);
  }

  /** Entry `k` of `CookAll` is line `k`, cooked. */
  lemma {:induction false} CookAllAt(lines: seq<string>, k: nat)
    requires k < |lines|
    ensures CookAll(lines)[k] == Cook(lines[k])
  {
    if k < |lines| - 1 {
      CookAllAt(lines[..|lines| - 1], k);
    }
  }

  /**
    Every line before the omit marker is gathered, one for one and in order:
    an image directive or a width option verbatim behind two or one newlines,
    any other line stripped.
   */
  lemma GatheredAt(lines: seq<string>, k: nat)
    requires k < OmitAt(lines)
    ensures |Gathered(lines)| == OmitAt(lines)
    ensures StartsWith(Strip(lines[k]), ImageStub) ==> Gathered(lines)[k] == "\n\n" + lines[k]
    ensures !StartsWith(Strip(lines[k]), ImageStub) && StartsWith(Strip(lines[k]), WidthStub) ==>
              Gathered(lines)[k] == "\n" + lines[k]
    ensures !StartsWith(Strip(lines[k]), ImageStub) && !StartsWith(Strip(lines[k]), WidthStub) ==>
              Gathered(lines)[k] == Strip(lines[k])
  {
    var n := OmitAt(lines);
    CookAllAt(lines[..n], k);
    assert lines[..n][k] == lines[k];
  }

  /**
    Nothing from the first line carrying the omit marker onward is gathered:
    whatever follows that line, the gathered lines are those of the lines
    before it.
   */
  lemma {:induction false} OmitCutsRest(head: seq<string>, omitted: string, tail: seq<string>)
    requires HasOmit(omitted)
    ensures Gathered(head + [omitted] + tail) == Gathered(head)
  {
    var rest := [omitted] + tail;
    var lines := head + rest;
    ConcatAssoc(head, [omitted], tail);
    var n := OmitAt(head);
    OmitAtFirst(head);
    forall k | 0 <= k < n
      ensures !HasOmit(lines[k])
    {
      assert lines[k] == head[k];
    }
    if n < |head| {
      assert lines[n] == head[n];
    } else {
      assert lines[n] == omitted;
    }
    OmitAtUnique(lines, n);
    PrefixOfConcat(head, rest, n);
  }

  /** `OmitAt` is the one position before which no line is marked and at which one is. */
  lemma OmitAtUnique(lines: seq<string>, n: nat)
    requires n <= |lines|
    requires forall k :: 0 <= k < n ==> !HasOmit(lines[k])
    requires n < |lines| ==> HasOmit(lines[n])
    ensures OmitAt(lines) == n
  {
    FirstWhereUnique(lines, HasOmit, n);
  }

  /** A docstring piece after the second loop: a paragraph break (`None`) or a line. */
  datatype Piece = Break | Line(text: string)

  /** What the second loop makes of line `i` of `sub`. */
  function MarkAt(sub: seq<string>, i: nat): seq<Piece>
    requires i < |sub|
  {
    if sub[i] == "" && i != 0 && sub[i - 1] == "" then [Break]
    else if sub[i] == "" then []
    else [Line(sub[i])]
  }

  /** The pieces the second loop makes of the first `n` lines of `sub`. */
  function Marks(sub: seq<string>, n: nat): seq<Piece>
    requires n <= |sub|
  {
    if n == 0 then [] else Marks(sub, n - 1) + MarkAt(sub, n - 1)
  }

  /** The second loop of `formatDocString`: find the double breaks. */
  method MarkBreaks(sub: seq<string>) returns (post: seq<Piece>)
    ensures post == Marks(sub, |sub|)
  {
    post := [];
    for i := 0 to |sub|
      invariant post == Marks(sub, i)
    {
      if sub[i] == "" && i != 0 && sub[i - 1] == "" {
        post := post + [Break];
      } else if sub[i] == "" {
      } else {
        post := post + [Line(sub[i])];
      }
    }
  }

  /** The non-empty lines of `sub`, in order. */
  function NonEmpty(sub: seq<string>): (r: seq<string>)
    ensures forall k :: 0 <= k < |r| ==> r[k] != ""
  {
    if sub == [] then []
    else if sub[|sub| - 1] == "" then NonEmpty(sub[..|sub| - 1])
    else NonEmpty(sub[..|sub| - 1]) + [sub[|sub| - 1]]
  }

  /** The texts of the line pieces, in order. */
  function Texts(post: seq<Piece>): seq<string>
  {
    if post == [] then []
    else match post[|post| - 1]
      case Break => Texts(post[..|post| - 1])
      case Line(t) => Texts(post[..|post| - 1]) + [t]
  }

  lemma TextsAppend(a: seq<Piece>, b: seq<Piece>)
    ensures Texts(a + b) == Texts(a) + Texts(b)
  {
    if b != [] {
      assert (a + b)[..|a + b| - 1] == a + b[..|b| - 1];
      TextsAppend(a, b[..|b| - 1]);
    } else {
      assert a + b == a;
    }
  }

  /**
    The second loop keeps every non-empty line and only those, in their
    order: blank lines only ever become breaks or vanish.
   */
  lemma {:induction false} MarksKeepText(sub: seq<string>, n: nat)
    requires n <= |sub|
    ensures Texts(Marks(sub, n)) == NonEmpty(sub[..n])
  {
    if n > 0 {
      MarksKeepText(sub, n - 1);
      TextsAppend(Marks(sub, n - 1), MarkAt(sub, n - 1));
      assert sub[..n][..n - 1] == sub[..n - 1];
    }
  }

  /** A blank line directly after a blank line, at position `i`. */
  predicate DoubleBlankAt(sub: seq<string>, i: nat)
  {
    0 < i < |sub| && sub[i] == "" && sub[i - 1] == ""
  }

  /**
    The second loop yields a paragraph break exactly when some blank line
    directly follows another among the first `n` lines.
   */
  lemma {:induction false} MarksBreakIff(sub: seq<string>, n: nat)
    requires n <= |sub|
    ensures Break in Marks(sub, n) <==> exists i :: 0 <= i < n && DoubleBlankAt(sub, i)
  {
    if n > 0 {
      MarksBreakIff(sub, n - 1);
      var m := Marks(sub, n - 1);
      assert Marks(sub, n) == m + MarkAt(sub, n - 1);
      if DoubleBlankAt(sub, n - 1) {
        assert Break in Marks(sub, n);
      } else {
        assert Break !in MarkAt(sub, n - 1);
        assert (exists i :: 0 <= i < n && DoubleBlankAt(sub, i))
            <==> (exists i :: 0 <= i < n - 1 && DoubleBlankAt(sub, i));
      }
    }
  }

  /** The positions among the first `n` lines where a blank line follows another. */
  function DoubleBlanks(sub: seq<string>, n: nat): set<nat>
  {
    set i: nat | i < n && DoubleBlankAt(sub, i)
  }

  /**
    The second loop yields one paragraph break per blank line that directly
    follows another among the first `n` lines, and no other.
   */
  lemma {:induction false} MarksBreakCount(sub: seq<string>, n: nat)
    requires n <= |sub|
    ensures multiset(Marks(sub, n))[Break] == |DoubleBlanks(sub, n)|
  {
    if n > 0 {
      MarksBreakCount(sub, n - 1);
      MarksBreakStep(sub, n);
    } else {
      NoDoubleBlanks(sub);
    }
  }

  /** Among no lines there is no double blank. */
  lemma NoDoubleBlanks(sub: seq<string>)
    ensures |DoubleBlanks(sub, 0)| == 0
  {
    assert DoubleBlanks(sub, 0) == {};
  }

  /** `MarksBreakCount` carried from the first `n - 1` lines to the first `n`: line `n - 1` adds a break exactly when it adds a double blank. */
  lemma MarksBreakStep(sub: seq<string>, n: nat)
    requires 0 < n <= |sub|
    requires multiset(Marks(sub, n - 1))[Break] == |DoubleBlanks(sub, n - 1)|
    ensures multiset(Marks(sub, n))[Break] == |DoubleBlanks(sub, n)|
  {
    DoubleBlanksSnoc(sub, n);
    MarkAtBreak(sub, n - 1);
    var prev := Marks(sub, n - 1);
    var last := MarkAt(sub, n - 1);
    assert Marks(sub, n) == prev + last;
    assert multiset(prev + last) == multiset(prev) + multiset(last);
  }

  /** Line `i` yields a single break when it is a blank line after a blank line, and no break otherwise. */
  lemma MarkAtBreak(sub: seq<string>, i: nat)
    requires i < |sub|
    ensures DoubleBlankAt(sub, i) ==> MarkAt(sub, i) == [Break]
    ensures multiset(MarkAt(sub, i))[Break] == if DoubleBlankAt(sub, i) then 1 else 0
  {
  }

  /** Extending the range by one line adds that line's position exactly when it is a double blank. */
  lemma DoubleBlanksSnoc(sub: seq<string>, n: nat)
    requires 0 < n <= |sub|
    ensures |DoubleBlanks(sub, n)| == |DoubleBlanks(sub, n - 1)| + if DoubleBlankAt(sub, n - 1) then 1 else 0
  {
    if DoubleBlankAt(sub, n - 1) {
      assert DoubleBlanks(sub, n) == DoubleBlanks(sub, n - 1) + {n - 1};
    } else {
      assert DoubleBlanks(sub, n) == DoubleBlanks(sub, n - 1);
    }
  }

  /** A line that starts a Python example. */
  predicate IsExample(p: Piece)
  {
    p.Line? && StartsWith(p.text, ">>>")
  }

  /** Whether an example line occurs among the first `n` pieces: the `inExamples` flag. */
  predicate SeenExample(post: seq<Piece>, n: nat)
    requires n <= |post|
  {
    n > 0 && (IsExample(post[n - 1]) || SeenExample(post, n - 1))
  }

  /** What the third loop appends for one piece, given the `inExamples` flag before it. */
  function RenderOne(p: Piece, inExamples: bool, indent: string): string
  {
    match p
    case Break => "\n\n" + indent
    case Line(text) =>
      if StartsWith(text, ">>>") then (if inExamples then "\n" else "\n\n") + indent + text
      else if inExamples then "\n" + indent + text + " "
      else text + " "
  }

  /** What the third loop appends for the first `n` pieces. */
  function Rendered(post: seq<Piece>, n: nat, indent: string): (r: seq<string>)
    requires n <= |post|
    ensures |r| == n
  {
    if n == 0 then []
    else Rendered(post, n - 1, indent) + [RenderOne(post[n - 1], SeenExample(post, n - 1), indent)]
  }

  /** The third loop of `formatDocString`: render the pieces. */
  method RenderPieces(post: seq<Piece>, indent: string) returns (msg: seq<string>)
    ensures msg == [indent] + Rendered(post, |post|, indent) + ["\n"]
  {
    msg := [indent];
    var inExamples := false;
    for i := 0 to |post|
      invariant inExamples == SeenExample(post, i)
      invariant msg == [indent] + Rendered(post, i, indent)
    {
      var piece := post[i];
      if piece.Break? {
        msg := msg + ["\n\n" + indent];
      } else if StartsWith(piece.text, ">>>") {
        var space: string;
        if !inExamples {
          space := "\n\n";
          inExamples := true;
        } else {
          space := "\n";
        }
        msg := msg + [space + indent + piece.text];
      } else {
        if !inExamples {
          msg := msg + [piece.text + " "];
        } else {
          msg := msg + ["\n" + indent + piece.text + " "];
        }
      }
    }
    msg := msg + ["\n"];
  }

  /** The flag is set exactly when an earlier piece is an example line. */
  lemma {:induction false} SeenExampleIff(post: seq<Piece>, n: nat)
    requires n <= |post|
    ensures SeenExample(post, n) <==> exists j :: 0 <= j < n && IsExample(post[j])
  {
    if n > 0 {
      SeenExampleIff(post, n - 1);
    }
  }

  /** Piece `k` is rendered with the flag as it stood before it. */
  lemma {:induction false} RenderedAt(post: seq<Piece>, n: nat, indent: string, k: nat)
    requires k < n <= |post|
    ensures Rendered(post, n, indent)[k] == RenderOne(post[k], SeenExample(post, k), indent)
  {
    if k < n - 1 {
      RenderedAt(post, n - 1, indent, k);
    }
  }

  /**
    The first example line is set off by a blank line; every later one
    follows on the next line.
   */
  lemma ExampleSpacing(post: seq<Piece>, indent: string, k: nat)
    requires k < |post| && IsExample(post[k])
    ensures (forall j :: 0 <= j < k ==> !IsExample(post[j])) ==>
              Rendered(post, |post|, indent)[k] == "\n\n" + indent + post[k].text
    ensures (exists j :: 0 <= j < k && IsExample(post[j])) ==>
              Rendered(post, |post|, indent)[k] == "\n" + indent + post[k].text
  {
    RenderedAt(post, |post|, indent, k);
    SeenExampleIff(post, k);
  }

  /** What `formatDocString(doc, indent)` returns. */
  function DocText(doc: Option<string>, indent: string): string
  {
    match doc
    case None => ""
    case Some(text) => RenderText(Gathered(Split(text, '\n')), indent)
  }

  /** What the second and third loop and the final join make of the gathered lines. */
  function RenderText(sub: seq<string>, indent: string): string
  {
    var post := Marks(sub, |sub|);
    Join([indent] + Rendered(post, |post|, indent) + ["\n"], "")
  }

  /**
    `formatDocString(doc, indent)`: split the docstring into lines, gather them
    up to the omit marker, mark the double breaks, and render.
   */
  method FormatDocString(doc: Option<string>, indent: string) returns (r: string)
    ensures r == DocText(doc, indent)
  {
    if doc.None? {
      return "";
    }
    var lines := Split(doc.value, '\n');
    var sub := GatherLines(lines);
    var post := MarkBreaks(sub);
    var msg := RenderPieces(post, indent);
    r := Join(msg, "");
  }

  /**
    A missing docstring renders as nothing; a present one starts with the
    indent and ends with a newline.
   */
  lemma DocTextShape(doc: Option<string>, indent: string)
    ensures doc.None? ==> DocText(doc, indent) == ""
    ensures doc.Some? ==> StartsWith(DocText(doc, indent), indent)
    ensures doc.Some? ==> |DocText(doc, indent)| > 0 && DocText(doc, indent)[|DocText(doc, indent)| - 1] == '\n'
  {
    if doc.Some? {
      RenderTextShape(Gathered(Split(doc.value, '\n')), indent);
    }
  }

  /** The rendered text starts with the indent and ends with a newline. */
  lemma RenderTextShape(sub: seq<string>, indent: string)
    ensures StartsWith(RenderText(sub, indent), indent)
    ensures |RenderText(sub, indent)| > 0 && RenderText(sub, indent)[|RenderText(sub, indent)| - 1] == '\n'
  {
    var post := Marks(sub, |sub|);
    var body := [indent] + Rendered(post, |post|, indent);
    JoinSnoc(body, "\n", "");
    var text := Join(body, "");
    if |body| == 1 {
      assert text == indent;
    } else {
      JoinAppend([indent], body[1..], "");
      assert [indent] + body[1..] == body;
    }
    assert StartsWith(text, indent);
    assert RenderText(sub, indent) == text + "" + "\n";
  }

  /**
    Of a docstring, nothing from the first line carrying the omit marker
    onward reaches the output.
   */
  lemma DocTextOmits(lines: seq<string>, k: nat, indent: string)
    requires k < |lines| && HasOmit(lines[k])
    requires forall j :: 0 <= j < |lines| ==> '\n' !in lines[j]
    ensures DocText(Some(Join(lines, "\n")), indent) == DocText(Some(Join(lines[..k], "\n")), indent)
  {
    if k == 0 {
      DocTextOmitsAll(lines, indent);
      return;
    }
    var head := lines[..k];
    GatheredStopsAt(lines, k);
    forall j | 0 <= j < |head|
      ensures '\n' !in head[j]
    {
      assert head[j] == lines[j];
    }
    DocTextOfLines(lines, indent);
    DocTextOfLines(head, indent);
  }

  /** The lines gathered stop before the first marked line, wherever it is. */
  lemma GatheredStopsAt(lines: seq<string>, k: nat)
    requires k < |lines| && HasOmit(lines[k])
    ensures Gathered(lines) == Gathered(lines[..k])
  {
    SplitAt(lines, k);
    SuffixCons(lines, k);
    ConcatAssoc(lines[..k], [lines[k]], lines[k + 1..]);
    OmitCutsRest(lines[..k], lines[k], lines[k + 1..]);
  }

  /** A marker on the first line leaves what an empty docstring leaves: the indent and a newline. */
  lemma DocTextOmitsAll(lines: seq<string>, indent: string)
    requires lines != [] && HasOmit(lines[0])
    requires forall j :: 0 <= j < |lines| ==> '\n' !in lines[j]
    ensures DocText(Some(Join(lines, "\n")), indent) == DocText(Some(""), indent)
  {
    OmitAtUnique(lines, 0);
    DocTextOfLines(lines, indent);
    EmptyDocText(indent);
  }

  /** The empty docstring is one blank line, which renders as no line at all. */
  lemma EmptyDocText(indent: string)
    ensures DocText(Some(""), indent) == RenderText([], indent)
  {
    assert Join([""], "\n") == "";
    DocTextOfLines([""], indent);
    GatheredBlank();
    assert Marks([""], 1) == [];
  }

  /** A single blank line is gathered as itself. */
  lemma GatheredBlank()
    ensures Gathered([""]) == [""]
  {
    assert Strip("") == "";
    assert !HasOmit("");
    OmitAtUnique([""], 1);
    assert Cook("") == "";
  }

  /** A docstring made of lines free of newlines is rendered from exactly those lines. */
  lemma DocTextOfLines(lines: seq<string>, indent: string)
    requires lines != []
    requires forall j :: 0 <= j < |lines| ==> '\n' !in lines[j]
    ensures DocText(Some(Join(lines, "\n")), indent) == RenderText(Gathered(lines), indent)
  {
    var text := Join(lines, "\n");
    SplitLines(lines);
    assert Split(text, '\n') == lines;
  }

  /** Lines free of newlines, joined by newlines, split back into the same lines. */
  lemma SplitLines(lines: seq<string>)
    requires lines != []
    requires forall j :: 0 <= j < |lines| ==> '\n' !in lines[j]
    ensures Split(Join(lines, "\n"), '\n') == lines
  {
    SplitJoin(lines, '\n');
  }

  // ---------------------------------------------------------------------------
  // ModuleDoc.fileRef

  /** Why a module name yields no reference: it lacks a second dotted part, or that part is empty. */
  datatype FileRefError = NoSubmodule | EmptySubmodule

  /** `s[0].upper() + s[1:]` for a non-empty `s`. */
  function Capitalize(s: string): (r: string)
    requires s != []
    ensures |r| == |s| && r[0] == ToUpper(s[0]) && r[1..] == s[1..]
  {
    [ToUpper(s[0])] + s[1..]
  }

  /**
    `ModuleDoc` names a module's page after the second part of its dotted
    name, capitalized, behind `module`; indexing a missing part or character
    raises.
   */
  function FileRef(modName: string): (r: Result<string, FileRefError>)
    ensures r.Ok? <==> |Split(modName, '.')| >= 2 && Split(modName, '.')[1] != ""
    ensures r.Ok? ==> StartsWith(r.value, "module") && r.value[6..] == Capitalize(Split(modName, '.')[1])
    ensures r == Err(NoSubmodule) <==> |Split(modName, '.')| < 2
  {
    var fn := Split(modName, '.');
    if |fn| < 2 then Err(NoSubmodule)
    else if fn[1] == "" then Err(EmptySubmodule)
    else Ok("module" + Capitalize(fn[1]))
  }

  /**
    Only the second part of the dotted name matters: `music21.note` and
    `music21.note.extra` both give `moduleNote`.
   */
  lemma FileRefOfParts(parts: seq<string>)
    requires |parts| >= 2 && parts[1] != ""
    requires forall k :: 0 <= k < |parts| ==> '.' !in parts[k]
    ensures FileRef(Join(parts, ".")) == Ok("module" + Capitalize(parts[1]))
  {
    SplitJoin(parts, '.');
  }
}
