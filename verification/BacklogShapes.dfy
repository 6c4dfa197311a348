/** The line shapes of the backlog, as they may be written by hand or by an agent. */
module BacklogShapes {
  // Which lines are items and steps (src/evomesh/codebase.py), told as what may be written,
  // apart from how it is matched.

  import opened Options
  import opened Text
  import opened BacklogLines

  predicate AllSpace(s: string) {
    forall i :: 0 <= i < |s| ==> IsSpace(s[i])
  }

  /** Something, with no space at either end. */
  predicate Solid(s: string) {
    s != "" && !IsSpace(s[0]) && !IsSpace(s[|s| - 1])
  }

  // ---- items ----

  /** The line is an item with this mark and title: up to three blanks, the box, a blank, the
      title, and space to the end. */
  ghost predicate IsItem(line: string, mark: char, title: string) {
    Solid(title) && exists blanks, end :: BlanksUpTo3(blanks) && AllSpace(end) && line == ItemText(blanks, mark, title) + end
  }

  predicate BlanksUpTo3(s: string) {
    s == "" || s == " " || s == "  " || s == "   "
  }

  function ItemText(blanks: string, mark: char, title: string): string {
    blanks + ("- [" + [mark] + "] " + title)
  }

  lemma TrimsTo(t: string, end: string)
    requires AllSpace(end) && (t != "" ==> !IsSpace(t[|t| - 1]))
    ensures TrimRight(t + end) == t
  {
    TrimRightIs(t + end, |t|);
    assert (t + end)[..|t|] == t;
  }

  lemma TrimsFrom(line: string)
    ensures var t := TrimRight(line); line == t + line[|t|..] && AllSpace(line[|t|..])
    ensures TrimRight(line) != "" ==> !IsSpace(TrimRight(line)[|TrimRight(line)| - 1])
  {
  }

  lemma ItemStands(t: string, blanks: string, mark: char, title: string)
    requires BlanksUpTo3(blanks) && title != "" && t == ItemText(blanks, mark, title)
    ensures LeadingBlanks(t) == |blanks| && |blanks| + 6 < |t| && t[|blanks| + 6..] == title
    ensures forall m :: Boxed(t, |blanks|, m) <==> m == mark && !IsSpace(title[0])
  {
    hide IsSpace;
    var k := |blanks|;
    var box := "- [" + [mark] + "] ";
    assert t[k..] == box + title && (box + title)[6..] == title;
    assert t[k..][0] == '-' && t[k..][1] == ' ' && t[k..][2] == '[' && t[k..][3] == mark && t[k..][4] == ']' && t[k..][5] == ' ';
    assert t[k..][6] == title[0];
    LeadingBlanksIs(t, k);
  }

  lemma ItemReads(line: string, mark: char, title: string)
    requires IsItem(line, mark, title)
    ensures var t := TrimRight(line); var k := LeadingBlanks(t);
      k + 6 < |t| && t[k + 6..] == title && forall m :: Boxed(t, k, m) <==> m == mark
  {
    hide IsSpace, Boxed;
    var blanks, end :| BlanksUpTo3(blanks) && AllSpace(end) && line == ItemText(blanks, mark, title) + end;
    var t := ItemText(blanks, mark, title);
    assert t[|t| - 1] == title[|title| - 1];
    TrimsTo(t, end);
    ItemStands(t, blanks, mark, title);
  }

  lemma TitleSolid(t: string, i: nat)
    requires i < |t| && !IsSpace(t[i]) && !IsSpace(t[|t| - 1])
    ensures Solid(t[i..])
  {
    hide IsSpace;
    assert t[i..][0] == t[i] && t[i..][|t| - i - 1] == t[|t| - 1];
  }

  lemma BoxedParts(t: string, k: nat, mark: char)
    requires k == LeadingBlanks(t) && Boxed(t, k, mark) && !IsSpace(t[|t| - 1])
    ensures Solid(t[k + 6..]) && BlanksUpTo3(t[..k]) && t == ItemText(t[..k], mark, t[k + 6..])
  {
    hide IsSpace, ItemText, BlanksUpTo3, Solid, LeadingBlanks;
    TitleSolid(t, k + 6);
    BlanksLead(t);
    FewBlanks(t[..k]);
    BoxText(t, k, mark);
  }

  lemma BlanksLead(t: string)
    ensures var s := t[..LeadingBlanks(t)]; forall i :: 0 <= i < |s| ==> s[i] == ' '
  {
  }

  lemma BoxedIsItem(line: string, mark: char)
    requires var t := TrimRight(line); Boxed(t, LeadingBlanks(t), mark)
    ensures var t := TrimRight(line); LeadingBlanks(t) + 6 <= |t| && IsItem(line, mark, t[LeadingBlanks(t) + 6..])
  {
    hide IsSpace, TrimRight, Solid, BlanksUpTo3, ItemText;
    var t := TrimRight(line);
    var k := LeadingBlanks(t);
    TrimsFrom(line);
    BoxedParts(t, k, mark);
    assert line == ItemText(t[..k], mark, t[k + 6..]) + line[|t|..];
  }

  lemma FewBlanks(s: string)
    requires |s| <= 3 && forall i :: 0 <= i < |s| ==> s[i] == ' '
    ensures BlanksUpTo3(s)
  {
    if |s| == 1 {
      assert s == " ";
    } else if |s| == 2 {
      assert s == "  ";
    } else if |s| == 3 {
      assert s == "   ";
    }
  }

  lemma BoxText(t: string, k: nat, mark: char)
    requires k + 6 < |t| && t[k] == '-' && t[k + 1] == ' ' && t[k + 2] == '[' && t[k + 3] == mark && t[k + 4] == ']' && t[k + 5] == ' '
    ensures t == ItemText(t[..k], mark, t[k + 6..])
  {
    var box := "- [" + [mark] + "] ";
    assert t[k..k + 6] == box;
    assert t == t[..k] + (t[k..k + 6] + t[k + 6..]);
  }

  /** An open item's title is what stands behind its box. */
  lemma OpenExactly(line: string, title: string)
    ensures OpenTitle(line) == Some(title) <==> IsItem(line, ' ', title)
  {
    hide IsSpace, TrimRight, IsItem;
    if IsItem(line, ' ', title) {
      ItemReads(line, ' ', title);
    }
    if OpenTitle(line) == Some(title) {
      BoxedIsItem(line, ' ');
    }
  }

  /** Ticked with an x of either case, or struck with a dash, an item is done. */
  lemma DoneExactly(line: string)
    ensures IsDone(line) <==> exists mark, title :: mark in ['x', 'X', '-'] && IsItem(line, mark, title)
  {
    hide IsSpace, TrimRight, IsItem, Boxed;
    var t := TrimRight(line);
    forall mark, title | mark in ['x', 'X', '-'] && IsItem(line, mark, title) ensures IsDone(line) {
      ItemReads(line, mark, title);
    }
    if IsDone(line) {
      var mark := if Boxed(t, LeadingBlanks(t), 'x') then 'x' else if Boxed(t, LeadingBlanks(t), 'X') then 'X' else '-';
      BoxedIsItem(line, mark);
    }
  }

  /** What continues an item: no item of its own, and blank or indented. */
  lemma ContinuesExactly(line: string)
    ensures Continues(line) <==>
      && (forall mark, title :: mark in [' ', 'x', 'X', '-'] ==> !IsItem(line, mark, title))
      && (AllSpace(line) || line[0] == ' ' || line[0] == '\t')
  {
    hide IsItem, IsSpace;
    DoneExactly(line);
    forall title ensures OpenTitle(line) == Some(title) <==> IsItem(line, ' ', title) {
      OpenExactly(line, title);
    }
    BlankOrIndented(line);
    assert IsDone(line) <==> exists mark, title :: mark in ['x', 'X', '-'] && IsItem(line, mark, title);
    assert OpenTitle(line).None? <==> forall title :: !IsItem(line, ' ', title);
  }

  lemma BlankOrIndented(line: string)
    ensures var t := TrimRight(line);
      (t == [] || t[0] == ' ' || t[0] == '\t') <==> (AllSpace(line) || line[0] == ' ' || line[0] == '\t')
  {
    var t := TrimRight(line);
    TrimsFrom(line);
    if t != [] {
      assert line[|t| - 1] == t[|t| - 1];
    }
  }

  // ---- steps ----

  /** A step as it may be written: indentation, number, box, the path with or without
      backticks, the symbol in them, a separator or none, and the change. */
  datatype Written = Written(pad: string, digits: string, gap: string, mark: char, gap2: string, tick: string, path: string,
                             tick2: string, gap3: string, symbol: string, gap4: string, separator: string, gap5: string,
                             change: string, end: string)

  predicate IsTick(s: string) {
    s == "" || s == "`"
  }

  predicate IsSeparator(s: string) {
    s == "" || s == "--" || s == ":" || s == "-" || s == "\U{2014}" || s == "\U{2013}"
  }

  /** What follows is no separator of its own, and no second dash. */
  predicate GoesOn(separator: string, rest: string) {
    rest != "" ==>
      if separator == "" then rest[0] !in [':', '-', '\U{2014}', '\U{2013}'] else separator == "-" ==> rest[0] != '-'
  }

  /** A name, or a class and a method of it. */
  ghost predicate IsSymbol(s: string) {
    IsName(s) || exists i :: 0 <= i < |s| && s[i] == '.' && IsName(s[..i]) && IsName(s[i + 1..])
  }

  predicate IsName(s: string) {
    s != "" && IsNameStart(s[0]) && forall i :: 0 <= i < |s| ==> IsWord(s[i])
  }

  ghost predicate IsWritten(w: Written) {
    && w.pad != "" && AllSpace(w.pad) && w.digits != "" && AllDigits(w.digits) && AllSpace(w.gap) && w.mark in [' ', 'x', 'X']
    && AllSpace(w.gap2) && IsTick(w.tick) && PathShape(w.path) && IsTick(w.tick2) && w.gap3 != "" && AllSpace(w.gap3)
    && IsSymbol(w.symbol) && AllSpace(w.gap4) && IsSeparator(w.separator) && AllSpace(w.gap5) && (w.separator == "" ==> w.gap5 == "")
    && (w.change != "" ==> Solid(w.change)) && AllSpace(w.end)
    && GoesOn(w.separator, w.gap5 + w.change)
    && (w.change == "" ==> w.gap5 == "" && (w.separator == "" ==> w.gap4 == ""))
  }

  /** What stands behind the symbol's backticks. */
  function Behind(w: Written): string {
    w.gap4 + (w.separator + (w.gap5 + w.change))
  }

  function AfterPath(w: Written): string {
    w.gap3 + ("`" + (w.symbol + ("`" + Behind(w))))
  }

  function AfterBox(w: Written): string {
    w.gap2 + (w.tick + (w.path + (w.tick2 + AfterPath(w))))
  }

  function Line(w: Written): string {
    w.pad + (w.digits + ("." + (w.gap + ("[" + ([w.mark] + ("]" + AfterBox(w)))))))
  }

  /** Names are made of letters, digits and underscores (by their ASCII codes), and start with
      no digit. */
  lemma NameCharacters(c: char)
    ensures IsNameStart(c) <==> 65 <= c as int <= 90 || 97 <= c as int <= 122 || c as int == 95
    ensures IsWord(c) <==> IsNameStart(c) || 48 <= c as int <= 57
  {
  }

  // ---- passing what is written ----

  /** From `i` on the text goes on like this. */
  predicate From(t: string, i: nat, rest: string) {
    i <= |t| && t[i..] == rest
  }

  lemma Passed(t: string, i: nat, part: string, rest: string)
    requires From(t, i, part + rest)
    ensures i + |part| <= |t| && From(t, i + |part|, rest) && At(t, i, part)
    ensures forall j :: i <= j < i + |part| ==> t[j] == part[j - i]
    ensures rest != "" ==> i + |part| < |t| && t[i + |part|] == rest[0]
    ensures rest == "" ==> i + |part| == |t|
    ensures t[i..i + |part|] == part
  {
    assert t[i..] == part + rest;
    assert forall j :: i <= j < |t| ==> t[j] == (part + rest)[j - i];
  }

  lemma PassSpace(t: string, i: nat, gap: string, rest: string)
    requires From(t, i, gap + rest) && AllSpace(gap) && (rest != "" ==> !IsSpace(rest[0]))
    ensures SpaceEnd(t, i) == i + |gap| && From(t, i + |gap|, rest)
  {
    hide IsSpace, From, SpaceEnd, At;
    Passed(t, i, gap, rest);
    SpaceEndIs(t, i, i + |gap|);
  }

  lemma PassDigits(t: string, i: nat, digits: string, rest: string)
    requires From(t, i, digits + rest) && AllDigits(digits) && rest != "" && !IsDigit(rest[0])
    ensures DigitEnd(t, i) == i + |digits| && From(t, i + |digits|, rest) && t[i..i + |digits|] == digits
  {
    hide IsDigit, From, DigitEnd, At;
    Passed(t, i, digits, rest);
    DigitEndIs(t, i, i + |digits|);
  }

  lemma PassWord(t: string, i: nat, word: string, rest: string)
    requires From(t, i, word + rest) && (forall j :: 0 <= j < |word| ==> IsWord(word[j])) && rest != "" && !IsWord(rest[0])
    ensures WordEnd(t, i) == i + |word| && From(t, i + |word|, rest)
  {
    hide IsWord, From, WordEnd, At;
    Passed(t, i, word, rest);
    WordEndIs(t, i, i + |word|);
  }

  lemma PassTick(t: string, i: nat, tick: string, rest: string)
    requires From(t, i, tick + rest) && IsTick(tick) && (tick == "" ==> rest == "" || rest[0] != '`')
    ensures Tick(t, i) == i + |tick| && From(t, i + |tick|, rest)
  {
    hide From, At;
    Passed(t, i, tick, rest);
  }

  lemma PassName(t: string, i: nat, name: string, rest: string)
    requires From(t, i, name + rest) && IsName(name) && rest != "" && !IsWord(rest[0])
    ensures NameEnd(t, i) == Some(i + |name|) && From(t, i + |name|, rest)
  {
    hide IsWord, IsNameStart, From, At, WordEnd;
    Passed(t, i, name, rest);
    PassWord(t, i, name, rest);
  }

  lemma NoWords()
    ensures !IsWord('.') && !IsWord('`') && !IsDigit('.') && !IsSpace('[') && !IsSpace('`')
  {
  }

  lemma PassDotted(t: string, i: nat, a: string, b: string, rest: string)
    requires From(t, i, a + ("." + (b + rest))) && IsName(a) && IsName(b) && rest != "" && rest[0] == '`'
    ensures SymbolEnd(t, i) == Some(i + |a| + 1 + |b|)
  {
    hide IsNameStart, From, At, NameEnd, IsName, IsWord;
    NoWords();
    Passed(t, i, a, "." + (b + rest));
    PassName(t, i, a, "." + (b + rest));
    Passed(t, i + |a|, ".", b + rest);
    PassName(t, i + |a| + 1, b, rest);
  }

  lemma PassPlain(t: string, i: nat, symbol: string, rest: string)
    requires From(t, i, symbol + rest) && IsName(symbol) && rest != "" && rest[0] == '`'
    ensures SymbolEnd(t, i) == Some(i + |symbol|)
  {
    hide IsNameStart, From, At, NameEnd, IsName, IsWord;
    NoWords();
    Passed(t, i, symbol, rest);
    PassName(t, i, symbol, rest);
  }

  lemma Dotted(symbol: string, k: nat, rest: string)
    requires k < |symbol| && symbol[k] == '.'
    ensures symbol + rest == symbol[..k] + ("." + (symbol[k + 1..] + rest))
  {
    assert symbol == symbol[..k] + ("." + symbol[k + 1..]);
  }

  lemma DottedEnd(t: string, i: nat, symbol: string, rest: string)
    requires From(t, i, symbol + rest) && IsSymbol(symbol) && !IsName(symbol) && rest != "" && rest[0] == '`'
    ensures SymbolEnd(t, i) == Some(i + |symbol|)
  {
    hide From, SymbolEnd, IsName;
    var k :| 0 <= k < |symbol| && symbol[k] == '.' && IsName(symbol[..k]) && IsName(symbol[k + 1..]);
    Dotted(symbol, k, rest);
    PassDotted(t, i, symbol[..k], symbol[k + 1..], rest);
  }

  lemma PassSymbol(t: string, i: nat, symbol: string, rest: string)
    requires From(t, i, symbol + rest) && IsSymbol(symbol) && rest != "" && rest[0] == '`'
    ensures SymbolEnd(t, i) == Some(i + |symbol|) && From(t, i + |symbol|, rest) && t[i..i + |symbol|] == symbol
  {
    hide From, At, SymbolEnd, IsName, IsSymbol;
    Passed(t, i, symbol, rest);
    if IsName(symbol) {
      PassPlain(t, i, symbol, rest);
    } else {
      DottedEnd(t, i, symbol, rest);
    }
  }

  lemma DashesAt(t: string, i: nat)
    ensures At(t, i, "--") <==> i + 1 < |t| && t[i] == '-' && t[i + 1] == '-'
  {
    if At(t, i, "--") {
      assert t[i + 0] == "--"[0] && t[i + 1] == "--"[1];
    }
  }

  lemma PassSeparator(t: string, i: nat, separator: string, rest: string)
    requires From(t, i, separator + rest) && IsSeparator(separator) && GoesOn(separator, rest)
    ensures SeparatorEnd(t, i) == i + |separator| && From(t, i + |separator|, rest)
  {
    hide From, At;
    Passed(t, i, separator, rest);
    DashesAt(t, i);
  }

  // ---- a written step is read ----

  lemma PassPath(t: string, i: nat, path: string, rest: string)
    requires From(t, i, path + rest) && PathShape(path) && rest != "" && !IsWord(rest[0])
    ensures At(t, i, ROOT) && WordEnd(t, i + |ROOT|) == i + |path| - 3 && i + |path| <= |t| && At(t, i + |path| - 3, ".py")
    ensures From(t, i + |path|, rest) && t[i..i + |path|] == path
  {
    hide IsWord, From, At, WordEnd, ROOT;
    Passed(t, i, path, rest);
    var name := path[|ROOT|..|path| - 3];
    assert path == ROOT + (name + ".py");
    assert path + rest == ROOT + (name + (".py" + rest));
    Passed(t, i, ROOT, name + (".py" + rest));
    NoWords();
    PassWord(t, i + |ROOT|, name, ".py" + rest);
    Passed(t, i + |ROOT| + |name|, ".py", rest);
  }

  lemma PathStarts(path: string)
    requires PathShape(path)
    ensures path != "" && path[0] != '`' && !IsSpace(path[0])
  {
    assert path[..|ROOT|][0] == 's';
  }

  lemma SpaceLeads(gap: string, rest: string)
    requires gap != "" && AllSpace(gap)
    ensures gap + rest != "" && IsSpace((gap + rest)[0]) && !IsWord((gap + rest)[0]) && (gap + rest)[0] != '`'
  {
    assert (gap + rest)[0] == gap[0];
  }

  lemma TickLeads(tick: string, rest: string)
    requires IsTick(tick) && rest != ""
    ensures tick + rest != "" && (tick + rest)[0] == if tick == "" then rest[0] else '`'
  {
    assert tick == "" ==> tick + rest == rest;
  }

  lemma PathRead(t: string, w: Written)
    requires IsWritten(w) && t == w.gap2 + (w.tick + (w.path + (w.tick2 + AfterPath(w))))
    ensures var p := |w.gap2| + |w.tick|; var q := p + |w.path| + |w.tick2|;
      && Tick(t, SpaceEnd(t, 0)) == p && At(t, p, ROOT) && WordEnd(t, p + |ROOT|) == p + |w.path| - 3
      && p + |w.path| <= |t| && At(t, p + |w.path| - 3, ".py") && t[p..p + |w.path|] == w.path
      && Tick(t, p + |w.path|) == q && From(t, q, AfterPath(w))
  {
    hide IsWritten, From, At, WordEnd, SpaceEnd, Tick, IsSpace, ROOT, AfterPath;
    PathLeads(w);
    HeadPassed(t, w.gap2, w.tick, w.path + (w.tick2 + AfterPath(w)));
    PathPassed(t, |w.gap2| + |w.tick|, w);
  }

  lemma HeadPassed(t: string, gap: string, tick: string, rest: string)
    requires AllSpace(gap) && IsTick(tick) && rest != "" && rest[0] != '`' && !IsSpace(rest[0]) && t == gap + (tick + rest)
    ensures Tick(t, SpaceEnd(t, 0)) == |gap| + |tick| && From(t, |gap| + |tick|, rest)
  {
    hide AllSpace, From, At, SpaceEnd, Tick, IsSpace, IsWord, IsTick;
    Whole(t);
    TickLeads(tick, rest);
    NoWords();
    PassSpace(t, 0, gap, tick + rest);
    PassTick(t, |gap|, tick, rest);
  }

  lemma PathLeads(w: Written)
    requires IsWritten(w)
    ensures var rest := w.path + (w.tick2 + AfterPath(w)); rest != "" && rest[0] != '`' && !IsSpace(rest[0])
    ensures AllSpace(w.gap2) && IsTick(w.tick)
  {
    hide AllSpace, IsSpace, IsWord, PathShape, IsSymbol, AfterPath, Solid, GoesOn, IsSeparator, AllDigits;
    PathStarts(w.path);
  }

  lemma PathPassed(t: string, p: nat, w: Written)
    requires IsWritten(w) && From(t, p, w.path + (w.tick2 + AfterPath(w)))
    ensures At(t, p, ROOT) && WordEnd(t, p + |ROOT|) == p + |w.path| - 3
    ensures p + |w.path| <= |t| && At(t, p + |w.path| - 3, ".py") && t[p..p + |w.path|] == w.path
    ensures Tick(t, p + |w.path|) == p + |w.path| + |w.tick2| && From(t, p + |w.path| + |w.tick2|, AfterPath(w))
  {
    hide AllSpace, From, At, WordEnd, Tick, IsSpace, IsWord, ROOT, IsSymbol, Solid, GoesOn, IsSeparator, AfterPath,
      PathShape, AllDigits, IsTick;
    AfterPathLeads(w);
    TickLeads(w.tick2, AfterPath(w));
    NoWords();
    PassPath(t, p, w.path, w.tick2 + AfterPath(w));
    PassTick(t, p + |w.path|, w.tick2, AfterPath(w));
  }

  lemma AfterPathLeads(w: Written)
    requires IsWritten(w)
    ensures var rest := AfterPath(w); rest != "" && !IsWord(rest[0]) && rest[0] != '`'
  {
    hide AllSpace, IsSpace, IsWord, PathShape, IsSymbol, Behind, Solid, GoesOn, IsSeparator, AllDigits;
    SpaceLeads(w.gap3, "`" + (w.symbol + ("`" + Behind(w))));
  }

  lemma Whole(t: string)
    ensures From(t, 0, t)
  {
  }

  /** The separator and the spaces around it, and the change. */
  lemma ChangeRead(t: string, i: nat, w: Written)
    requires IsWritten(w) && From(t, i, Behind(w))
    ensures i <= |t|
    ensures var c := SpaceEnd(t, SeparatorEnd(t, SpaceEnd(t, i))); t[c..] == w.change
  {
    hide AllSpace, From, At, SpaceEnd, IsSpace, IsWord, ROOT, IsSymbol, IsSeparator, PathShape, AllDigits, IsTick, SeparatorEnd, GoesOn;
    ChangeLeads(w);
    Bounded(t, i, Behind(w));
    PassSpace(t, i, w.gap4, w.separator + (w.gap5 + w.change));
    PassSeparator(t, i + |w.gap4|, w.separator, w.gap5 + w.change);
    PassSpace(t, i + |w.gap4| + |w.separator|, w.gap5, w.change);
    Last(t, i + |w.gap4| + |w.separator| + |w.gap5|, w.change);
  }

  lemma SymbolRead(t: string, q: nat, w: Written)
    requires IsWritten(w) && From(t, q, AfterPath(w))
    ensures q <= |t| && ParseSymbol(t, q, w.path) == Some(Anchor(w.path, w.symbol, w.change))
  {
    hide AllSpace, From, At, SpaceEnd, IsSpace, IsWord, ROOT, IsSymbol, IsSeparator, PathShape, AllDigits, IsTick, SymbolEnd,
      SeparatorEnd, Behind, Solid, GoesOn;
    NoWords();
    var s := q + |w.gap3|;
    Bounded(t, q, AfterPath(w));
    PassSpace(t, q, w.gap3, "`" + (w.symbol + ("`" + Behind(w))));
    Passed(t, s, "`", w.symbol + ("`" + Behind(w)));
    PassSymbol(t, s + 1, w.symbol, "`" + Behind(w));
    var e := s + 1 + |w.symbol|;
    Passed(t, e, "`", Behind(w));
    ChangeRead(t, e + 1, w);
  }

  lemma Bounded(t: string, i: nat, rest: string)
    requires From(t, i, rest)
    ensures i <= |t|
  {
  }

  lemma Last(t: string, i: nat, rest: string)
    requires From(t, i, rest)
    ensures i <= |t| && t[i..] == rest
  {
  }

  /** What stands behind the gaps is no space. */
  lemma ChangeLeads(w: Written)
    requires IsWritten(w)
    ensures w.change != "" ==> !IsSpace(w.change[0])
    ensures var rest := w.separator + (w.gap5 + w.change); rest != "" ==> !IsSpace(rest[0])
  {
    hide AllSpace, PathShape, IsSymbol, AllDigits, IsWord, GoesOn;
    var rest := w.separator + (w.gap5 + w.change);
    assert w.separator != "" ==> rest[0] == w.separator[0];
    assert w.separator == "" ==> rest == w.change;
  }

  lemma AnchorRead(w: Written)
    requires IsWritten(w)
    ensures ParseAnchor(AfterBox(w)) == Some(Anchor(w.path, w.symbol, w.change))
  {
    hide AllSpace, From, At, SpaceEnd, IsSpace, IsWord, ROOT, IsSymbol, IsSeparator, PathShape, AllDigits, IsTick, AfterPath, Solid,
      GoesOn, ParseSymbol, WordEnd, Tick;
    var t := AfterBox(w);
    var p := |w.gap2| + |w.tick|;
    PathRead(t, w);
    SymbolRead(t, p + |w.path| + |w.tick2|, w);
    PathLong(w.path);
  }

  lemma PathLong(path: string)
    requires PathShape(path)
    ensures |path| > |ROOT| + 3
  {
  }

  lemma NumberStands(t: string, w: Written, rest: string)
    requires IsWritten(w) && t == w.pad + (w.digits + ("." + (w.gap + rest)))
    ensures var a, b, c := |w.pad|, |w.pad| + |w.digits|, |w.pad| + |w.digits| + 1 + |w.gap|;
      && b < |t| && c <= |t| && t[b] == '.' && t[a..b] == w.digits
      && (forall m :: 0 <= m < a ==> IsSpace(t[m]))
      && (forall m :: a <= m < b ==> IsDigit(t[m]))
      && (forall m :: b < m < c ==> IsSpace(t[m]))
      && !IsSpace(t[a]) && From(t, c, rest)
  {
    hide From, At, IsSpace, IsWord, ROOT, IsSymbol, IsSeparator, PathShape, IsTick, Solid, GoesOn, IsDigit, AllSpace, AllDigits;
    var a, b := |w.pad|, |w.pad| + |w.digits|;
    Whole(t);
    SpacesStand(t, 0, w.pad, w.digits + ("." + (w.gap + rest)));
    DigitsStand(t, a, w.digits, "." + (w.gap + rest));
    Passed(t, b, ".", w.gap + rest);
    SpacesStand(t, b + 1, w.gap, rest);
    Bounded(t, b + 1 + |w.gap|, rest);
  }

  lemma SpacesStand(t: string, i: nat, gap: string, rest: string)
    requires From(t, i, gap + rest) && AllSpace(gap)
    ensures i + |gap| <= |t| && From(t, i + |gap|, rest) && forall m :: i <= m < i + |gap| ==> IsSpace(t[m])
  {
    hide From, At, IsSpace;
    Passed(t, i, gap, rest);
  }

  lemma DigitsStand(t: string, i: nat, digits: string, rest: string)
    requires From(t, i, digits + rest) && AllDigits(digits) && digits != ""
    ensures i + |digits| <= |t| && From(t, i + |digits|, rest) && t[i..i + |digits|] == digits && !IsSpace(t[i])
    ensures forall m :: i <= m < i + |digits| ==> IsDigit(t[m])
  {
    hide From, At, IsSpace, IsDigit;
    Passed(t, i, digits, rest);
    DigitsNoSpace(digits);
  }

  lemma MarkStands(t: string, c: nat, mark: char, rest: string)
    requires From(t, c, "[" + ([mark] + ("]" + rest)))
    ensures c + 2 < |t| && t[c] == '[' && t[c + 1] == mark && t[c + 2] == ']' && t[c + 3..] == rest
  {
    hide From, At;
    Passed(t, c, "[", [mark] + ("]" + rest));
    Passed(t, c + 1, [mark], "]" + rest);
    Passed(t, c + 2, "]", rest);
    Last(t, c + 3, rest);
  }

  lemma BoxRead(t: string, w: Written)
    requires IsWritten(w) && t == Line(w)
    ensures var c := |w.pad| + |w.digits| + 1 + |w.gap|;
      BoxAt(t) == Some(c) && Digits(t) == w.digits && c + 2 < |t| && t[c + 1] == w.mark && t[c + 3..] == AfterBox(w)
  {
    hide From, At, SpaceEnd, DigitEnd, IsSpace, IsWord, ROOT, IsSymbol, IsSeparator, PathShape, IsTick, AfterBox, Solid, GoesOn, IsDigit,
      BoxAt, AllSpace, AllDigits;
    var a, b, c := |w.pad|, |w.pad| + |w.digits|, |w.pad| + |w.digits| + 1 + |w.gap|;
    NumberStands(t, w, "[" + ([w.mark] + ("]" + AfterBox(w))));
    MarkStands(t, c, w.mark, AfterBox(w));
    BoxIs(t, a, b, c);
  }

  lemma DigitsNoSpace(digits: string)
    requires digits != "" && AllDigits(digits)
    ensures !IsSpace(digits[0]) && forall i :: 0 <= i < |digits| ==> IsDigit(digits[i])
  {
    assert digits[0] in digits;
  }

  lemma LastChar(a: string, b: string)
    requires b != ""
    ensures (a + b)[|a + b| - 1] == b[|b| - 1]
  {
  }

  /** The line ends in no space. */
  lemma LineEnds(w: Written)
    requires IsWritten(w)
    ensures Line(w) != "" && !IsSpace(Line(w)[|Line(w)| - 1])
  {
    hide Behind, IsSpace, IsWord, ROOT, IsSymbol, PathShape, AllDigits, IsTick, AllSpace, GoesOn;
    NoWords();
    var tail := "`" + Behind(w);
    TailEnds(w);
    LastChar(w.gap3 + ("`" + w.symbol), tail);
    assert AfterPath(w) == w.gap3 + ("`" + w.symbol) + tail;
    LastChar(w.gap2 + (w.tick + (w.path + w.tick2)), AfterPath(w));
    assert AfterBox(w) == w.gap2 + (w.tick + (w.path + w.tick2)) + AfterPath(w);
    var head := w.pad + (w.digits + ("." + (w.gap + ("[" + ([w.mark] + "]")))));
    LastChar(head, AfterBox(w));
    assert Line(w) == head + AfterBox(w);
  }

  lemma TailEnds(w: Written)
    requires IsWritten(w)
    ensures var tail := "`" + Behind(w); tail != "" && !IsSpace(tail[|tail| - 1])
  {
    hide IsWord, IsSpace, ROOT, IsSymbol, PathShape, AllDigits, IsTick, AllSpace, GoesOn;
    var head := "`" + (w.gap4 + (w.separator + w.gap5));
    if w.change != "" {
      LastChar(head, w.change);
      assert "`" + Behind(w) == head + w.change;
    } else if w.separator != "" {
      SeparatorSolid(w.separator);
      LastChar("`" + w.gap4, w.separator);
      assert "`" + Behind(w) == "`" + w.gap4 + w.separator;
    } else {
      NoWords();
      assert "`" + Behind(w) == "`";
    }
  }

  lemma SeparatorSolid(separator: string)
    requires IsSeparator(separator) && separator != ""
    ensures !IsSpace(separator[|separator| - 1])
  {
  }

  /** A step is read from a line however it is written. */
  lemma StepReads(w: Written)
    requires IsWritten(w)
    ensures StepMatch(Line(w) + w.end) == Some(Step(ParseNat(w.digits), w.path, w.symbol, w.change, w.mark != ' '))
  {
    hide BoxAt, Line, AfterBox, IsSpace, ParseAnchor, ParseNat;
    LineEnds(w);
    TrimsTo(Line(w), w.end);
    BoxRead(Line(w), w);
    AnchorRead(w);
  }
}
