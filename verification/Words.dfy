/**
 Reserved words and operators: the search by first character with its length cut-off, and the scanning of
 operators (bootstrap/lexer.c:283-296, 381-424, bootstrap/tokens.c:11-111).
 */
module Words {
  import opened Basics

  /** An entry of the keyword table; `operator` marks the kinds between the operator bounds. */
  datatype Def = Def(letters: string, operator: bool)

  /** The entries with one first character, next to each other in the table. */
  datatype RawGroup = Group(first: char, words: seq<string>, operator: bool)

  predicate IsLetter(c: char) {
    'a' <= c <= 'z'
  }

  /** What the lexer calls punctuation: neither letter nor digit nor underscore. */
  predicate IsPunct(c: char) {
    !('a' <= c <= 'z') && !('A' <= c <= 'Z') && !('0' <= c <= '9') && c != '_'
  }

  /** The last character is ASCII punctuation, and no blank or newline unless it is the only one. */
  predicate EndsInPunct(s: string) {
    s != "" && IsPunct(s[|s| - 1]) && s[|s| - 1] as int < 128 && (|s| > 1 ==> s[|s| - 1] > ' ')
  }

  /**
   A group has one first character, descending lengths, and all operators or all reserved words. Only
   three have operators of more than two characters.
   */
  ghost predicate IsGroup(g: RawGroup) {
    && g.words != [] && g.first as int < 256 && g.operator == !IsLetter(g.first)
    && (forall i :: 0 <= i < |g.words| ==>
          g.words[i] != "" && g.words[i][0] == g.first && (g.operator ==> EndsInPunct(g.words[i])))
    && (forall i :: 0 < i < |g.words| ==> |g.words[i - 1]| >= |g.words[i]|)
    && (g.first <= ' ' ==> |g.words[0]| == 1)
    && (g.operator ==> (|g.words[0]| <= 2 && g.first != '.') || g == Dots() || g == Less() || g == Greater())
  }

  type Group = g: RawGroup | IsGroup(g) ghost witness Group('#', ["#"], true)

  function Dots(): RawGroup {
    Group('.', ["..=", "..<", "."], true)
  }

  function Less(): RawGroup {
    Group('<', ["<<=", "<<~", "<=", "<-", "<<", "<>", "<"], true)
  }

  function Greater(): RawGroup {
    Group('>', [">>>=", ">>=", ">>~", ">>>", ">=", ">>", ">"], true)
  }

  function Symbols1(): seq<Group> {
    [
      Group('\n', ["\n"], true),
      Group('!', ["!=", "!"], true),
      Group('#', ["#"], true),
      Group('%', ["%=", "%"], true),
      Group('&', ["&&", "&=", "&"], true),
      Group('(', ["("], true)
    ]
  }

  function Symbols2(): seq<Group> {
    [
      Group(')', [")"], true),
      Group('*', ["*=", "*"], true),
      Group('+', ["+=", "++", "+"], true),
      Group('-', ["->", "--", "-=", "-"], true)
    ]
  }

  function Symbols3(): seq<Group> {
    [
      Dots(),
      Group('/', ["/=", "/*", "//", "/"], true),
      Group(':', [":=", ":"], true),
      Group(';', [";"], true)
    ]
  }

  function Symbols4(): seq<Group> {
    [
      Less(),
      Group('=', ["==", "=>", "="], true)
    ]
  }

  function Symbols5(): seq<Group> {
    [
      Greater(),
      Group('?', ["??", "?"], true)
    ]
  }

  function Symbols6(): seq<Group> {
    [
      Group('[', ["["], true),
      Group(']', ["]"], true),
      Group('^', ["^=", "^"], true),
      Group(' ', [" "], true)
    ]
  }

  function Reserved1(): seq<Group> {
    [
      Group('b', ["break", "bytes", "bool"], false),
      Group('c', ["continue", "catch", "const", "char"], false),
      Group('d', ["default", "defer", "do"], false)
    ]
  }

  function Reserved2(): seq<Group> {
    [
      Group('e', ["error", "echo", "else", "enum"], false),
      Group('f', ["false", "float", "func"], false),
      Group('i', ["interface", "import", "int", "if", "in", "is"], false)
    ]
  }

  function Reserved3(): seq<Group> {
    [
      Group('l', ["loop"], false),
      Group('m', ["module", "match"], false),
      Group('r', ["return"], false)
    ]
  }

  function Reserved4(): seq<Group> {
    [
      Group('s', ["select", "string", "struct", "spawn"], false),
      Group('t', ["then", "true", "try"], false),
      Group('u', ["uint"], false)
    ]
  }

  function Reserved5(): seq<Group> {
    [
      Group('v', ["void"], false),
      Group('w', ["while"], false),
      Group('y', ["yield"], false)
    ]
  }

  function Braces(): seq<Group> {
    [
      Group('{', ["{"], true),
      Group('|', ["||", "|=", "|"], true),
      Group('}', ["}"], true),
      Group('~', ["~"], true)
    ]
  }

  function Groups(): seq<Group> {
    Symbols1() + Symbols2() + Symbols3() + Symbols4() + Symbols5() + Symbols6() +
    Reserved1() + Reserved2() + Reserved3() + Reserved4() + Reserved5() + Braces()
  }

  /** The keyword table. */
  function Table(): seq<Def> {
    Flatten(Groups())
  }

  function Entries(g: Group): (ds: seq<Def>)
    ensures |ds| == |g.words| && forall i :: 0 <= i < |ds| ==> ds[i] == Def(g.words[i], g.operator)
  {
    seq(|g.words|, i requires 0 <= i < |g.words| => Def(g.words[i], g.operator))
  }

  function Flatten(gs: seq<Group>): seq<Def> {
    if gs == [] then [] else Flatten(gs[..|gs| - 1]) + Entries(gs[|gs| - 1])
  }

  // ----- searching the table -----

  /** The first entry with exactly these letters. */
  function LinearFind(table: seq<Def>, word: string, from: nat): (i: Option<nat>)
    ensures i.Some? ==> from <= i.value < |table| && table[i.value].letters == word
    ensures i.None? ==> forall k :: from <= k < |table| ==> table[k].letters != word
    decreases |table| - from
  {
    if from >= |table| then None
    else if table[from].letters == word then Some(from)
    else LinearFind(table, word, from + 1)
  }

  /** The first character as the byte it is. */
  function First(d: Def): nat
    requires d.letters != ""
  {
    d.letters[0] as int
  }

  predicate HaveLetters(table: seq<Def>) {
    forall i :: 0 <= i < |table| ==> table[i].letters != "" && First(table[i]) < 256
  }

  /** Entries are grouped by their first character, by descending length inside a group. */
  ghost predicate Grouped(table: seq<Def>) {
    && HaveLetters(table)
    && (forall i, j :: 0 <= i < j < |table| && First(table[i]) == First(table[j]) ==>
          |table[i].letters| >= |table[j].letters|)
    && (forall i, k, j :: 0 <= i < k < j < |table| && First(table[i]) == First(table[j]) ==>
          First(table[k]) == First(table[i]))
  }

  /** Where the entries with a first character begin and end; an empty range begins behind its end. */
  datatype Range = Range(start: nat, end: nat)

  /** The range of a character over the first `n` entries. */
  ghost predicate IsRangeOf(table: seq<Def>, c: nat, r: Range, n: nat)
    requires n <= |table| && HaveLetters(table)
  {
    && r.end <= n
    && (forall i :: 0 <= i < n && First(table[i]) == c ==> r.start <= i < r.end)
    && (r.start < r.end ==> First(table[r.start]) == c && First(table[r.end - 1]) == c)
    && (r.start >= r.end ==> r == Range(|table|, 0))
  }

  /** `build_ranges`: one pass that lowers starts and raises ends. */
  method BuildRanges(table: seq<Def>) returns (ranges: array<Range>)
    requires HaveLetters(table)
    ensures fresh(ranges) && ranges.Length == 256
    ensures forall c :: 0 <= c < 256 ==> IsRangeOf(table, c, ranges[c], |table|)
  {
    ranges := new Range[256](_ => Range(|table|, 0));
    for i := 0 to |table|
      invariant forall c :: 0 <= c < 256 ==> IsRangeOf(table, c, ranges[c], i)
    {
      hide IsRangeOf;
      var c := First(table[i]);
      var r := ranges[c];
      var widened := Range(if r.start > i then i else r.start, if r.end < i + 1 then i + 1 else r.end);
      forall d | 0 <= d < 256
        ensures IsRangeOf(table, d, if d == c then widened else ranges[d], i + 1)
      {
        RangeWidens(table, d, ranges[d], i);
      }
      ranges[c] := widened;
    }
  }

  lemma RangeWidens(table: seq<Def>, c: nat, r: Range, i: nat)
    requires i < |table| && HaveLetters(table) && IsRangeOf(table, c, r, i)
    ensures
      var widened := Range(if r.start > i then i else r.start, if r.end < i + 1 then i + 1 else r.end);
      IsRangeOf(table, c, if First(table[i]) == c then widened else r, i + 1)
  {
  }

  /** The search inside a range, given up at the first shorter entry, finds what a search of the whole table finds. */
  method Find(table: seq<Def>, r: Range, word: string) returns (i: Option<nat>)
    requires Grouped(table) && word != "" && IsRangeOf(table, word[0] as int, r, |table|)
    ensures i == LinearFind(table, word, 0)
  {
    var k := r.start;
    while k < r.end
      invariant forall j :: 0 <= j < k && j < |table| ==> table[j].letters != word
      decreases r.end - k
    {
      if |table[k].letters| < |word| {
        NothingBehind(table, r, word, k);
        break;
      }
      if |table[k].letters| == |word| && table[k].letters == word {
        FirstAt(table, word, k);
        return Some(k);
      }
      k := k + 1;
    }
    NothingAnywhere(table, word);
    i := None;
  }

  lemma NothingBehind(table: seq<Def>, r: Range, word: string, k: nat)
    requires Grouped(table) && word != "" && IsRangeOf(table, word[0] as int, r, |table|)
    requires r.start <= k < r.end && |table[k].letters| < |word|
    ensures forall j :: k <= j < |table| ==> table[j].letters != word
  {
    forall j | k <= j < |table|
      ensures table[j].letters != word
    {
      ShorterBehind(table, r, word[0] as int, k, j);
    }
  }

  /** From a place in its range on, a group's entries are no longer than the one there. */
  lemma ShorterBehind(table: seq<Def>, r: Range, c: nat, k: nat, j: nat)
    requires Grouped(table) && IsRangeOf(table, c, r, |table|) && r.start <= k < r.end && k <= j < |table|
    ensures First(table[j]) == c ==> |table[j].letters| <= |table[k].letters|
  {
    if First(table[j]) == c {
      assert First(table[r.start]) == c;
      assert First(table[k]) == c;
    }
  }

  lemma {:induction false} FirstAt(table: seq<Def>, word: string, k: nat)
    requires k < |table| && table[k].letters == word && forall j :: 0 <= j < k ==> table[j].letters != word
    ensures LinearFind(table, word, 0) == Some(k)
  {
    FirstFrom(table, word, k, 0);
  }

  lemma {:induction false} FirstFrom(table: seq<Def>, word: string, k: nat, from: nat)
    requires from <= k < |table| && table[k].letters == word && forall j :: from <= j < k ==> table[j].letters != word
    ensures LinearFind(table, word, from) == Some(k)
    decreases k - from
  {
    if from < k {
      FirstFrom(table, word, k, from + 1);
    }
  }

  lemma NothingAnywhere(table: seq<Def>, word: string)
    requires forall j :: 0 <= j < |table| ==> table[j].letters != word
    ensures LinearFind(table, word, 0) == None
  {
  }

  // ----- the table is grouped -----

  /** The groups stand in the order of their characters, but for the space. */
  function Rank(c: char): nat {
    if c == ' ' then 95 else c as int
  }

  ghost predicate Ordered(gs: seq<Group>) {
    forall i :: 0 < i < |gs| ==> Rank(gs[i - 1].first) < Rank(gs[i].first)
  }

  lemma Symbols1Ordered()
    ensures Ordered(Symbols1()) && |Symbols1()| == 6
    ensures Rank(Symbols1()[0].first) == 10 && Rank(Symbols1()[5].first) == 40
  {
    hide IsGroup;
  }

  lemma Symbols2Ordered()
    ensures Ordered(Symbols2()) && |Symbols2()| == 4
    ensures Rank(Symbols2()[0].first) == 41 && Rank(Symbols2()[3].first) == 45
  {
    hide IsGroup;
  }

  lemma Symbols3Ordered()
    ensures Ordered(Symbols3()) && |Symbols3()| == 4
    ensures Rank(Symbols3()[0].first) == 46 && Rank(Symbols3()[3].first) == 59
  {
    hide IsGroup;
  }

  lemma Symbols4Ordered()
    ensures Ordered(Symbols4()) && |Symbols4()| == 2
    ensures Rank(Symbols4()[0].first) == 60 && Rank(Symbols4()[1].first) == 61
  {
    hide IsGroup;
  }

  lemma Symbols5Ordered()
    ensures Ordered(Symbols5()) && |Symbols5()| == 2
    ensures Rank(Symbols5()[0].first) == 62 && Rank(Symbols5()[1].first) == 63
  {
    hide IsGroup;
  }

  lemma Symbols6Ordered()
    ensures Ordered(Symbols6()) && |Symbols6()| == 4
    ensures Rank(Symbols6()[0].first) == 91 && Rank(Symbols6()[3].first) == 95
  {
    hide IsGroup;
  }

  lemma Reserved1Ordered()
    ensures Ordered(Reserved1()) && |Reserved1()| == 3
    ensures Rank(Reserved1()[0].first) == 98 && Rank(Reserved1()[2].first) == 100
  {
    hide IsGroup;
  }

  lemma Reserved2Ordered()
    ensures Ordered(Reserved2()) && |Reserved2()| == 3
    ensures Rank(Reserved2()[0].first) == 101 && Rank(Reserved2()[2].first) == 105
  {
    hide IsGroup;
  }

  lemma Reserved3Ordered()
    ensures Ordered(Reserved3()) && |Reserved3()| == 3
    ensures Rank(Reserved3()[0].first) == 108 && Rank(Reserved3()[2].first) == 114
  {
    hide IsGroup;
  }

  lemma Reserved4Ordered()
    ensures Ordered(Reserved4()) && |Reserved4()| == 3
    ensures Rank(Reserved4()[0].first) == 115 && Rank(Reserved4()[2].first) == 117
  {
    hide IsGroup;
  }

  lemma Reserved5Ordered()
    ensures Ordered(Reserved5()) && |Reserved5()| == 3
    ensures Rank(Reserved5()[0].first) == 118 && Rank(Reserved5()[2].first) == 121
  {
    hide IsGroup;
  }

  lemma BracesOrdered()
    ensures Ordered(Braces()) && |Braces()| == 4
    ensures Rank(Braces()[0].first) == 123 && Rank(Braces()[3].first) == 126
  {
    hide IsGroup;
  }

  lemma OrderedJoins(gs: seq<Group>, hs: seq<Group>)
    requires Ordered(gs) && Ordered(hs) && gs != [] && hs != []
    requires Rank(gs[|gs| - 1].first) < Rank(hs[0].first)
    ensures Ordered(gs + hs) && Rank((gs + hs)[|gs + hs| - 1].first) == Rank(hs[|hs| - 1].first)
  {
    hide IsGroup, Rank;
  }

  lemma GroupsAreOrdered()
    ensures Ordered(Groups())
  {
    Symbols1Ordered();
    Symbols2Ordered();
    Symbols3Ordered();
    Symbols4Ordered();
    Symbols5Ordered();
    Symbols6Ordered();
    Reserved1Ordered();
    Reserved2Ordered();
    Reserved3Ordered();
    Reserved4Ordered();
    Reserved5Ordered();
    BracesOrdered();
    hide Ordered, Rank, Symbols1, Symbols2, Symbols3, Symbols4, Symbols5, Symbols6;
    hide Reserved1, Reserved2, Reserved3, Reserved4, Reserved5, Braces;
    var gs := Symbols1();
    OrderedJoins(gs, Symbols2());
    gs := gs + Symbols2();
    OrderedJoins(gs, Symbols3());
    gs := gs + Symbols3();
    OrderedJoins(gs, Symbols4());
    gs := gs + Symbols4();
    OrderedJoins(gs, Symbols5());
    gs := gs + Symbols5();
    OrderedJoins(gs, Symbols6());
    gs := gs + Symbols6();
    OrderedJoins(gs, Reserved1());
    gs := gs + Reserved1();
    OrderedJoins(gs, Reserved2());
    gs := gs + Reserved2();
    OrderedJoins(gs, Reserved3());
    gs := gs + Reserved3();
    OrderedJoins(gs, Reserved4());
    gs := gs + Reserved4();
    OrderedJoins(gs, Reserved5());
    gs := gs + Reserved5();
    OrderedJoins(gs, Braces());
  }

  lemma {:induction false} FlattenIsGrouped(gs: seq<Group>)
    requires Ordered(gs)
    ensures Grouped(Flatten(gs))
    ensures forall d :: d in Flatten(gs) ==> d.letters != "" && d.operator == !IsLetter(d.letters[0])
    ensures forall d :: d in Flatten(gs) ==> Rank(d.letters[0]) <= Rank(gs[|gs| - 1].first)
  {
    if gs != [] {
      FlattenIsGrouped(gs[..|gs| - 1]);
      GroupedJoins(Flatten(gs[..|gs| - 1]), gs[|gs| - 1]);
    }
  }

  lemma {:induction false} Descends(g: Group, i: nat, j: nat)
    requires i <= j < |g.words|
    ensures |g.words[i]| >= |g.words[j]|
    decreases j
  {
    if i < j {
      Descends(g, i, j - 1);
    }
  }

  /** The entries of one group are grouped. */
  lemma EntriesOf(g: Group)
    ensures Grouped(Entries(g))
    ensures forall d :: d in Entries(g) ==>
      d.letters != "" && d.letters[0] == g.first && d.operator == !IsLetter(g.first)
  {
    forall i, j | 0 <= i < j < |g.words|
      ensures |g.words[i]| >= |g.words[j]|
    {
      Descends(g, i, j);
    }
  }

  lemma GroupedJoins(table: seq<Def>, g: Group)
    requires Grouped(table)
    requires forall d :: d in table ==> d.letters != "" && d.letters[0] != g.first
    ensures Grouped(table + Entries(g))
  {
    EntriesOf(g);
    hide IsGroup, Entries;
    var ds := Entries(g);
    forall i | 0 <= i < |table|
      ensures First(table[i]) != g.first as int
    {
      assert table[i] in table;
    }
    forall i | 0 <= i < |ds|
      ensures First(ds[i]) == g.first as int
    {
      assert ds[i] in ds;
    }
  }

  /** The whole table is grouped: the order its comment asks for. */
  lemma TableIsGrouped()
    ensures Grouped(Table())
    ensures forall d :: d in Table() ==> d.letters != "" && d.operator == !IsLetter(d.letters[0])
  {
    GroupsAreOrdered();
    hide Ordered, Grouped;
    FlattenIsGrouped(Groups());
  }

  ghost predicate InGroups(gs: seq<Group>, word: string) {
    exists k :: 0 <= k < |gs| && word in gs[k].words
  }

  lemma {:induction false} FlattenHas(gs: seq<Group>, word: string)
    ensures InGroups(gs, word) <==> exists d :: d in Flatten(gs) && d.letters == word
  {
    if gs != [] {
      var init, last := gs[..|gs| - 1], gs[|gs| - 1];
      FlattenHas(init, word);
      if word in last.words {
        var i :| 0 <= i < |last.words| && last.words[i] == word;
        assert Entries(last)[i].letters == word && Entries(last)[i] in Flatten(gs);
      }
      if d :| d in Flatten(gs) && d.letters == word {
        assert d in Flatten(init) || d in Entries(last);
      }
    }
  }

  // ----- words -----

  ghost predicate Ranged(ranges: array<Range>)
    reads ranges
  {
    && ranges.Length == 256 && HaveLetters(Table())
    && forall c :: 0 <= c < 256 ==> IsRangeOf(Table(), c, ranges[c], |Table()|)
  }

  datatype WordToken = BoolLiteral(text: string) | Reserved(entry: nat) | Identifier(text: string)

  /** What a word is, by a search of the whole table. */
  function WordOf(word: string): WordToken {
    match LinearFind(Table(), word, 0)
    case None => Identifier(word)
    case Some(i) => if word == "true" || word == "false" then BoolLiteral(word) else Reserved(i)
  }

  /** `build_ranges`, called for the table of the language. */
  method TableRanges() returns (ranges: array<Range>)
    ensures fresh(ranges) && Ranged(ranges)
  {
    TableIsGrouped();
    ranges := BuildRanges(Table());
  }

  /** The bucket search classifies every word as the search of the whole table does. */
  method ProcessWord(ranges: array<Range>, word: string) returns (t: WordToken)
    requires Ranged(ranges) && word != "" && word[0] as int < 256
    ensures t == WordOf(word)
  {
    TableIsGrouped();
    hide Grouped, IsRangeOf;
    var i := Find(Table(), ranges[word[0] as int], word);
    if i.None? {
      return Identifier(word);
    }
    var d := Table()[i.value];
    return if d.letters == "true" || d.letters == "false" then BoolLiteral(word) else Reserved(i.value);
  }

  // ----- operators -----

  /** The table has the word, as an operator. */
  predicate IsOperator(s: string) {
    var i := LinearFind(Table(), s, 0);
    i.Some? && Table()[i.value].operator
  }

  method CouldBeOperator(ranges: array<Range>, taken: string, next: char) returns (yes: bool)
    requires Ranged(ranges) && taken != "" && taken[0] as int < 256
    ensures yes == IsOperator(taken + [next])
  {
    TableIsGrouped();
    hide Grouped, IsRangeOf;
    var i := Find(Table(), ranges[taken[0] as int], taken + [next]);
    yes := i.Some? && Table()[i.value].operator;
  }

  lemma OperatorsInGroups(s: string)
    requires s != ""
    ensures IsOperator(s) <==> !IsLetter(s[0]) && InGroups(Groups(), s)
  {
    TableIsGrouped();
    hide Grouped;
    FlattenHas(Groups(), s);
    var i := LinearFind(Table(), s, 0);
    if i.Some? {
      assert Table()[i.value] in Table();
    }
  }

  /** A prefix of the input that is an operator. */
  predicate OperatorAt(input: string, n: nat) {
    0 < n <= |input| && IsOperator(input[..n])
  }

  /**
   Scanning takes one character and goes on while the next one is punctuation and makes an operator of
   what is taken.
   */
  function Scan(input: string, taken: nat): (n: nat)
    requires 0 < taken <= |input|
    ensures taken <= n <= |input|
    ensures forall k :: taken < k <= n ==> OperatorAt(input, k)
    ensures n < |input| ==> !OperatorAt(input, n + 1)
    decreases |input| - taken
  {
    hide IsOperator;
    if taken < |input| && OperatorAt(input, taken + 1) then Scan(input, taken + 1) else taken
  }

  lemma OperatorsEndInPunct(s: string)
    requires s != "" && IsOperator(s)
    ensures EndsInPunct(s)
  {
    OperatorsInGroups(s);
    TableIsGrouped();
    hide IsOperator, Groups, EndsInPunct, Grouped;
    var k :| 0 <= k < |Groups()| && s in Groups()[k].words;
    assert Groups()[k].first == s[0];
  }

  /** An operator of more than one character neither begins nor ends with a blank or a newline. */
  lemma LongOperatorsAreVisible(s: string)
    requires |s| > 1 && IsOperator(s)
    ensures s[0] > ' ' && s[|s| - 1] > ' '
  {
    OperatorsEndInPunct(s);
    OperatorsInGroups(s);
    hide IsOperator, Groups, IsPunct;
    var k :| 0 <= k < |Groups()| && s in Groups()[k].words;
    InvisibleGroup(Groups()[k], s);
  }

  lemma InvisibleGroup(g: Group, s: string)
    requires s in g.words && |s| > 1
    ensures s[0] > ' '
  {
    var i :| 0 <= i < |g.words| && g.words[i] == s;
    Descends(g, 0, i);
  }

  /** So what is scanned is one character, or has no blank and no newline at all. */
  lemma ScannedIsVisible(input: string)
    requires input != ""
    ensures
      var n := Scan(input, 1);
      n > 1 ==> forall i :: 0 <= i < n ==> input[i] > ' '
  {
    hide IsOperator;
    var n := Scan(input, 1);
    if n > 1 {
      assert OperatorAt(input, n);
      LongOperatorsAreVisible(input[..n]);
      forall i | 1 <= i < n
        ensures input[i] > ' '
      {
        assert OperatorAt(input, i + 1);
        LongOperatorsAreVisible(input[..i + 1]);
      }
    }
  }

  /** The operator at the beginning of the input, as the character loop takes it. */
  method ScanOperator(ranges: array<Range>, input: string) returns (n: nat)
    requires Ranged(ranges) && input != "" && input[0] as int < 256
    ensures n == Scan(input, 1)
  {
    hide IsOperator, Ranged;
    n := 1;
    while n < |input|
      invariant 1 <= n <= |input| && Scan(input, n) == Scan(input, 1)
    {
      assert input[..n] + [input[n]] == input[..n + 1];
      if !IsPunct(input[n]) {
        if IsOperator(input[..n + 1]) {
          OperatorsEndInPunct(input[..n + 1]);
        }
        return;
      }
      var more := CouldBeOperator(ranges, input[..n], input[n]);
      if !more {
        return;
      }
      n := n + 1;
    }
  }

  ghost predicate IsLongest(input: string, n: nat) {
    OperatorAt(input, n) && forall k: nat :: OperatorAt(input, k) ==> k <= n
  }

  /** Scanning finds the longest operator exactly when every prefix of that operator is an operator, too. */
  lemma ScanIsLongestIff(input: string, longest: nat)
    requires IsLongest(input, longest)
    ensures Scan(input, 1) == longest <==> forall k :: 1 < k <= longest ==> OperatorAt(input, k)
  {
    var n := Scan(input, 1);
    assert n > 1 ==> OperatorAt(input, n);
    assert n < |input| ==> !OperatorAt(input, n + 1);
  }

  lemma GroupPrefixes(g: Group, s: string)
    requires g.operator && s in g.words && |s| >= 3 && s[..2] != ".."
    ensures s[..|s| - 1] in g.words
  {
    var k :| 0 <= k < |g.words| && g.words[k] == s;
    Descends(g, 0, k);
    DotsBegin(s);
    if g == Less() {
      assert s[..2] == "<<";
    } else {
      assert g == Greater();
      assert if |s| == 4 then s[..3] == ">>>" else s[..2] == ">>";
    }
  }

  lemma DotsBegin(s: string)
    requires |s| >= 3
    ensures s in Dots().words ==> s[..2] == ".."
  {
  }

  lemma PrefixIsOperator(s: string)
    requires |s| >= 3 && IsOperator(s) && s[..2] != ".."
    ensures IsOperator(s[..|s| - 1])
  {
    OperatorsInGroups(s);
    OperatorsInGroups(s[..|s| - 1]);
    hide IsOperator, Groups;
    var k :| 0 <= k < |Groups()| && s in Groups()[k].words;
    GroupPrefixes(Groups()[k], s);
  }

  /** No prefix is missing, except of the two range operators: two dots are no operator. */
  lemma {:induction false} OperatorsHavePrefixes(input: string, n: nat, k: nat)
    requires OperatorAt(input, n) && 1 < k <= n && !(n >= 3 && input[..2] == "..")
    ensures OperatorAt(input, k)
    decreases n
  {
    hide IsOperator;
    if k < n {
      assert input[..n][..n - 1] == input[..n - 1] && input[..n][..2] == input[..2];
      PrefixIsOperator(input[..n]);
      OperatorsHavePrefixes(input, n - 1, k);
    }
  }

  /** On every input that does not begin with two dots, scanning returns the longest operator of the table. */
  lemma ScanIsLongest(input: string, longest: nat)
    requires IsLongest(input, longest) && !(|input| >= 2 && input[..2] == "..")
    ensures Scan(input, 1) == longest
  {
    forall k | 1 < k <= longest
      ensures OperatorAt(input, k)
    {
      OperatorsHavePrefixes(input, longest, k);
    }
    ScanIsLongestIff(input, longest);
  }

  /** After two dots only one of them is scanned: the range operators are never found. */
  lemma TwoDotsScanOne(input: string)
    requires |input| >= 2 && input[..2] == ".."
    ensures Scan(input, 1) == 1
  {
    TwoDotsAreNone();
    hide IsOperator;
  }

  lemma TwoDotsAreNone()
    ensures !IsOperator("..")
  {
    OperatorsInGroups("..");
    hide IsOperator, Groups;
    forall k | 0 <= k < |Groups()|
      ensures ".." !in Groups()[k].words
    {
      NoTwoDots(Groups()[k]);
    }
  }

  lemma NoTwoDots(g: Group)
    ensures ".." !in g.words
  {
    assert g.first == '.' ==> g == Dots();
  }

  /** The operators that begin with a dot. */
  lemma DotOperators(s: string)
    requires s != "" && s[0] == '.'
    ensures IsOperator(s) <==> s in Dots().words
  {
    OperatorsInGroups(s);
    DotsAreThere();
    hide IsOperator, Groups;
    forall k | 0 <= k < |Groups()|
      ensures s in Groups()[k].words ==> s in Dots().words
    {
      FirstIsDot(Groups()[k], s);
    }
  }

  lemma FirstIsDot(g: Group, s: string)
    requires s != "" && s[0] == '.'
    ensures s in g.words ==> s in Dots().words
  {
    assert g.first == '.' ==> g == Dots();
  }

  lemma DotsAreThere()
    ensures exists k :: 0 <= k < |Groups()| && Groups()[k] == Dots()
  {
    hide IsGroup;
    assert Groups()[10] == Symbols3()[0];
  }

  // ----- words of the table -----

  ghost predicate InTable(word: string) {
    InGroups(Groups(), word)
  }

  lemma ListedAt(k: nat, g: Group, word: string)
    requires k < |Groups()| && Groups()[k] == g && word in g.words
    ensures InTable(word)
  {
    hide Groups, IsGroup;
  }

  lemma Symbols1Listed()
    ensures InTable("\n") && InTable("!=") && InTable("!") && InTable("&&") && InTable("(")
  {
    hide IsGroup, InTable;
    var chunk := Symbols1();
    assert Groups()[0] == chunk[0] && Groups()[1] == chunk[1] && Groups()[4] == chunk[4] && Groups()[5] == chunk[5];
    hide Groups;
    ListedAt(0, chunk[0], "\n");
    ListedAt(1, chunk[1], "!=");
    ListedAt(1, chunk[1], "!");
    ListedAt(4, chunk[4], "&&");
    ListedAt(5, chunk[5], "(");
  }

  lemma Symbols2Listed()
    ensures InTable(")") && InTable("*") && InTable("+") && InTable("-")
  {
    hide IsGroup, InTable;
    var chunk := Symbols2();
    assert Groups()[6] == chunk[0] && Groups()[7] == chunk[1] && Groups()[8] == chunk[2] && Groups()[9] == chunk[3];
    hide Groups;
    ListedAt(6, chunk[0], ")");
    ListedAt(7, chunk[1], "*");
    ListedAt(8, chunk[2], "+");
    ListedAt(9, chunk[3], "-");
  }

  lemma Symbols3Listed()
    ensures InTable("/") && InTable("//") && InTable("/*") && InTable(":=") && InTable(";")
  {
    hide IsGroup, InTable;
    var chunk := Symbols3();
    assert Groups()[11] == chunk[1] && Groups()[12] == chunk[2] && Groups()[13] == chunk[3];
    hide Groups;
    ListedAt(11, chunk[1], "/");
    ListedAt(11, chunk[1], "//");
    ListedAt(11, chunk[1], "/*");
    ListedAt(12, chunk[2], ":=");
    ListedAt(13, chunk[3], ";");
  }

  lemma Symbols4Listed()
    ensures InTable("<") && InTable("==") && InTable("=")
  {
    hide IsGroup, InTable;
    var chunk := Symbols4();
    assert Groups()[14] == chunk[0] && Groups()[15] == chunk[1];
    hide Groups;
    ListedAt(14, chunk[0], "<");
    ListedAt(15, chunk[1], "==");
    ListedAt(15, chunk[1], "=");
  }

  lemma Symbols5Listed()
    ensures InTable(">")
  {
    hide IsGroup, InTable;
    var chunk := Symbols5();
    assert Groups()[16] == chunk[0];
    hide Groups;
    ListedAt(16, chunk[0], ">");
  }

  lemma Reserved2Listed()
    ensures InTable("echo") && InTable("else") && InTable("false") && InTable("if")
  {
    hide IsGroup, InTable;
    var chunk := Reserved2();
    assert Groups()[25] == chunk[0] && Groups()[26] == chunk[1] && Groups()[27] == chunk[2];
    hide Groups;
    ListedAt(25, chunk[0], "echo");
    ListedAt(25, chunk[0], "else");
    ListedAt(26, chunk[1], "false");
    ListedAt(27, chunk[2], "if");
  }

  lemma Reserved4Listed()
    ensures InTable("then") && InTable("true")
  {
    hide IsGroup, InTable;
    var chunk := Reserved4();
    assert Groups()[32] == chunk[1];
    hide Groups;
    ListedAt(32, chunk[1], "then");
    ListedAt(32, chunk[1], "true");
  }

  lemma BracesListed()
    ensures InTable("{") && InTable("||") && InTable("}")
  {
    hide IsGroup, InTable;
    var chunk := Braces();
    assert Groups()[37] == chunk[0] && Groups()[38] == chunk[1] && Groups()[39] == chunk[2];
    hide Groups;
    ListedAt(37, chunk[0], "{");
    ListedAt(38, chunk[1], "||");
    ListedAt(39, chunk[2], "}");
  }

  /** No word of the table begins with a NUL. */
  lemma NulIsNotListed()
    ensures WordOf([0 as char]) == Identifier([0 as char])
  {
    hide Groups, Ordered, IsGroup, Rank;
    var nul := [0 as char];
    GroupsAreOrdered();
    FirstRanks();
    FlattenHas(Groups(), nul);
    forall k | 0 <= k < |Groups()|
      ensures nul !in Groups()[k].words
    {
      RanksAscend(Groups(), k);
      if nul in Groups()[k].words {
        FirstIs(Groups()[k], nul);
      }
    }
  }

  lemma FirstRanks()
    ensures |Groups()| > 0 && Rank(Groups()[0].first) == 10 && Rank(0 as char) == 0
  {
    hide IsGroup;
    assert Groups()[0] == Symbols1()[0];
  }

  lemma {:induction false} RanksAscend(gs: seq<Group>, k: nat)
    requires Ordered(gs) && k < |gs|
    ensures Rank(gs[0].first) <= Rank(gs[k].first)
    decreases k
  {
    hide IsGroup, Rank;
    if k > 0 {
      RanksAscend(gs, k - 1);
    }
  }

  lemma FirstIs(g: Group, word: string)
    requires word in g.words
    ensures word != "" && Rank(word[0]) == Rank(g.first)
  {
  }

  /** A word of the table is what it is, the two truth values are literals. */
  lemma ListedIs(word: string)
    requires InTable(word)
    ensures WordOf(word) == BoolLiteral(word) || WordOf(word).Reserved?
    ensures WordOf(word).BoolLiteral? <==> word == "true" || word == "false"
  {
    hide Groups, IsGroup;
    FlattenHas(Groups(), word);
  }

  predicate BeginsWithRange(input: string) {
    |input| >= 3 && input[0] == '.' && input[1] == '.' && (input[2] == '=' || input[2] == '<')
  }

  lemma RangeBegins(input: string)
    ensures BeginsWithRange(input) <==> |input| >= 3 && (input[..3] == "..=" || input[..3] == "..<")
    ensures BeginsWithRange(input) ==> input[..2] == ".."
  {
  }

  lemma DotWords(s: string)
    ensures s in Dots().words <==> s == "..=" || s == "..<" || s == "."
  {
  }

  lemma LongestOfDots(input: string, longest: nat)
    requires IsLongest(input, longest) && |input| >= 2 && input[..2] == ".."
    ensures longest == 1 <==> !BeginsWithRange(input)
  {
    hide IsOperator, Dots, BeginsWithRange;
    DotOperators(input[..longest]);
    DotWords(input[..longest]);
    RangeBegins(input);
    assert |input[..longest]| == longest;
    if |input| >= 3 {
      DotOperators(input[..3]);
      DotWords(input[..3]);
      assert input[..3] == "..=" || input[..3] == "..<" ==> OperatorAt(input, 3);
    }
  }

  /** The inputs on which scanning does not return the longest operator: those that begin with a range operator. */
  lemma ScanMissesRangesOnly(input: string, longest: nat)
    requires IsLongest(input, longest)
    ensures Scan(input, 1) == longest <==> !BeginsWithRange(input)
  {
    hide IsLongest, Scan, OperatorAt, IsOperator, BeginsWithRange;
    if |input| >= 2 && input[..2] == ".." {
      TwoDotsScanOne(input);
      LongestOfDots(input, longest);
    } else {
      ScanIsLongest(input, longest);
      RangeBegins(input);
    }
  }
}
