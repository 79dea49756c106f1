/**
  The recipe side of the page: the alias table that puts ingredient names into one
  canonical spelling, the two CSV readers (recipes and incompatible pairs), the
  incompatible-pair check over a selection, and the ranking that recommends recipes
  for the selected ingredients.  The recipe list and the pair list are parameters.
 */
module Recipes {
  import opened JsText
  import opened Wrappers

  // ---------------------------------------------------------------------------------
  // Ingredient names

  /** One entry of the alias table: the name `from` is written as `to`. */
  datatype Alias = Alias(from: string, to: string)

  /** The number of entries of the page's alias table. */
  const AliasCount := 11

  /** Entry `i` of the page's alias table. */
  function AliasAt(i: nat): Alias
    requires i < AliasCount
  {
    match i
    case 0 => Alias("西红柿", "番茄")
    case 1 => Alias("米饭", "米")
    case 2 => Alias("大米", "米")
    case 3 => Alias("面条", "面食")
    case 4 => Alias("馒头", "面食")
    case 5 => Alias("意面", "面食")
    case 6 => Alias("西兰花", "花菜")
    case 7 => Alias("黄瓜条", "黄瓜")
    case 8 => Alias("鸡胸肉", "鸡肉")
    case 9 => Alias("鸡翅", "鸡肉")
    case _ => Alias("五花肉", "猪肉")
  }

  /** No leading and no trailing white space. */
  predicate Trimmed(s: string) {
    s == [] || (!IsSpace(s[0]) && !IsSpace(s[|s| - 1]))
  }

  /** `map[s]`: the target of the first entry from `i` on that is named `s`. */
  function Resolve(s: string, i: nat): Option<string>
    decreases AliasCount - i
  {
    if i >= AliasCount then None
    else if AliasAt(i).from == s then Some(AliasAt(i).to)
    else Resolve(s, i + 1)
  }

  /** No entry of the table has the name `s`. */
  predicate Unnamed(s: string) {
    forall j :: 0 <= j < AliasCount ==> AliasAt(j).from != s
  }

  /** The names and targets of the table are non-empty and trimmed. */
  lemma AliasNamesTrimmed()
    ensures forall i :: 0 <= i < AliasCount ==> AliasAt(i).from != [] && Trimmed(AliasAt(i).from)
  {
  }

  lemma AliasTargetsTrimmed()
    ensures forall i :: 0 <= i < AliasCount ==> AliasAt(i).to != [] && Trimmed(AliasAt(i).to)
  {
  }

  /** The targets of the table. */
  lemma AliasTargets()
    ensures forall i :: 0 <= i < AliasCount ==>
      AliasAt(i).to in {"番茄", "米", "面食", "花菜", "黄瓜", "鸡肉", "猪肉"}
  {
  }

  /** The first targets are no names of the table. */
  lemma FirstTargetsUnnamed()
    ensures Unnamed("番茄") && Unnamed("米") && Unnamed("面食") && Unnamed("花菜")
  {
  }

  /** The other targets are no names of the table. */
  lemma LastTargetsUnnamed()
    ensures Unnamed("黄瓜") && Unnamed("鸡肉") && Unnamed("猪肉")
  {
  }

  /** None of the targets is a name in the table. */
  lemma TargetsUnnamed()
    ensures forall i :: 0 <= i < AliasCount ==> Unnamed(AliasAt(i).to)
  {
    AliasTargets();
    FirstTargetsUnnamed();
    LastTargetsUnnamed();
  }

  /** A name that no entry has is not resolved. */
  lemma {:induction false} ResolveMissing(s: string, i: nat)
    requires Unnamed(s)
    ensures Resolve(s, i) == None
    decreases AliasCount - i
  {
    if i < AliasCount {
      ResolveMissing(s, i + 1);
    }
  }

  /** The entry whose target a resolution returns. */
  function IndexOfTarget(s: string, i: nat): (j: nat)
    requires Resolve(s, i).Some?
    ensures j < AliasCount && AliasAt(j).from == s && AliasAt(j).to == Resolve(s, i).value
    decreases AliasCount - i
  {
    if AliasAt(i).from == s then i else IndexOfTarget(s, i + 1)
  }

  /** A resolved name is non-empty and trimmed, and so is its target, which resolves to
      nothing. */
  lemma ResolveFound(s: string)
    requires Resolve(s, 0).Some?
    ensures s != [] && Trimmed(s)
    ensures Resolve(s, 0).value != [] && Trimmed(Resolve(s, 0).value)
    ensures Resolve(Resolve(s, 0).value, 0) == None
  {
    var j := IndexOfTarget(s, 0);
    AliasNamesTrimmed();
    AliasTargetsTrimmed();
    TargetsUnnamed();
    ResolveMissing(AliasAt(j).to, 0);
  }

  /** A name that starts with white space is not in the table. */
  lemma StartsUnspaced(s: string)
    requires s != [] && IsSpace(s[0])
    ensures Unnamed(s)
  {
    AliasNamesTrimmed();
  }

  /** `canonicalizeIngredient`: the empty name stays empty; a name in the table is
      replaced by its target; the outcome is trimmed.  The lookup is on the untrimmed
      name. */
  function Canonicalize(s: string): (r: string)
    ensures Trimmed(r)
  {
    if s == [] then []
    else Trim(match Resolve(s, 0) case Some(t) => t case None => s)
  }

  predicate Canonical(s: string) {
    Canonicalize(s) == s
  }

  /** A name canonicalizes to nothing exactly when it is all white space. */
  lemma CanonicalizeEmpty(s: string)
    ensures Canonicalize(s) == [] <==> AllSpace(s)
  {
    if s != [] && Resolve(s, 0).Some? {
      ResolveFound(s);
      assert !IsSpace(s[0]);
      TrimOfTrimmed(Resolve(s, 0).value);
    }
  }

  /** Canonicalizing a trimmed name twice is the same as once. */
  lemma CanonicalizeIdempotent(s: string)
    requires Trimmed(s)
    ensures Canonical(Canonicalize(s))
  {
    if s != [] {
      match Resolve(s, 0)
      case Some(t) =>
        ResolveFound(s);
        TrimOfTrimmed(t);
      case None =>
        TrimOfTrimmed(s);
    }
  }

  /** A name with a leading space is trimmed but not looked up. */
  lemma CanonicalizeSpaced(s: string)
    requires Trimmed(s) && s != []
    ensures Canonicalize([' '] + s) == s
  {
    var t := [' '] + s;
    StartsUnspaced(t);
    ResolveMissing(t, 0);
    assert t[1..] == s;
    assert TrimEnd(t) == t;
    assert TrimStart(t) == TrimStart(s);
    TrimOfTrimmed(s);
  }

  /** Without trimming first the alias lookup can be missed once and hit the second time:
      `" 西红柿"` canonicalizes to `"西红柿"`, which canonicalizes to `"番茄"`. */
  lemma CanonicalizeNeedsTrimmed()
    ensures Canonicalize(" 西红柿") == "西红柿"
    ensures Canonicalize(Canonicalize(" 西红柿")) == "番茄"
  {
    AliasNamesTrimmed();
    CanonicalizeSpaced("西红柿");
    assert [' '] + "西红柿" == " 西红柿";
    assert Resolve("西红柿", 0) == Some("番茄");
    AliasTargetsTrimmed();
    TrimOfTrimmed("番茄");
  }

  /** `s => canonicalizeIngredient(s.trim())`, the form the CSV readers use. */
  function CleanName(s: string): string {
    Canonicalize(Trim(s))
  }

  /** A cleaned name is canonical, and it is empty exactly when the name is blank. */
  lemma CleanNameFacts(s: string)
    ensures Canonical(CleanName(s))
    ensures CleanName(s) == [] <==> AllSpace(s)
  {
    var t := Trim(s);
    CanonicalizeIdempotent(t);
    CanonicalizeEmpty(t);
    assert t != [] ==> !AllSpace(t) by {
      if t != [] { assert !IsSpace(t[0]); }
    }
  }

  // ---------------------------------------------------------------------------------
  // Lines and cells

  /** Drops one trailing carriage return. */
  function DropCR(s: string): string {
    if s != [] && s[|s| - 1] == '\r' then s[..|s| - 1] else s
  }

  /** `text.split(/\r?\n/)`: the pieces between line feeds, each without the carriage
      return just before its line feed (the last piece has no line feed after it). */
  function SplitLines(text: string): (r: seq<string>)
    ensures |r| == |Split(text, '\n')| >= 1
  {
    var p := Split(text, '\n');
    seq(|p|, k requires 0 <= k < |p| => if k < |p| - 1 then DropCR(p[k]) else p[k])
  }

  /** There is one line per line feed, plus one; each line is the text between two line
      feeds with one carriage return before the line feed dropped, and no line holds a
      line feed. */
  lemma SplitLinesFacts(text: string)
    ensures |SplitLines(text)| == multiset(text)['\n'] + 1
    ensures var p := Split(text, '\n'); var r := SplitLines(text);
      r[|r| - 1] == p[|p| - 1] && forall k :: 0 <= k < |r| - 1 ==> r[k] == DropCR(p[k])
    ensures forall k :: 0 <= k < |SplitLines(text)| ==> '\n' !in SplitLines(text)[k]
  {
    SplitCount(text, '\n');
  }

  /** `.filter(l => l.trim().length)`: drops the blank lines and keeps the order. */
  function NonBlank(ls: seq<string>): (r: seq<string>)
    ensures |r| <= |ls|
  {
    if ls == [] then []
    else (if AllSpace(ls[0]) then [] else [ls[0]]) + NonBlank(ls[1..])
  }

  /** The lines kept are non-blank lines of the input. */
  lemma {:induction false} NonBlankFacts(ls: seq<string>)
    ensures forall k :: 0 <= k < |NonBlank(ls)| ==> !AllSpace(NonBlank(ls)[k]) && NonBlank(ls)[k] in ls
  {
    if ls != [] {
      NonBlankFacts(ls[1..]);
    }
  }

  /** Filtering a concatenation filters each part on its own. */
  lemma {:induction false} NonBlankConcat(a: seq<string>, b: seq<string>)
    ensures NonBlank(a + b) == NonBlank(a) + NonBlank(b)
  {
    if a == [] {
      assert a + b == b;
    } else {
      assert (a + b)[1..] == a[1..] + b;
      NonBlankConcat(a[1..], b);
    }
  }

  /** Every line keeps its place: the kept lines are those before it, then the line itself
      unless it is blank, then those after it. */
  lemma NonBlankAt(head: seq<string>, l: string, rest: seq<string>)
    ensures NonBlank(head + [l] + rest) == NonBlank(head) + (if AllSpace(l) then [] else [l]) + NonBlank(rest)
  {
    assert head + [l] + rest == head + ([l] + rest);
    NonBlankConcat(head, [l] + rest);
    NonBlankCons(l, rest);
  }

  /** The first line is kept unless it is blank. */
  lemma NonBlankCons(l: string, rest: seq<string>)
    ensures NonBlank([l] + rest) == (if AllSpace(l) then [] else [l]) + NonBlank(rest)
  {
    assert ([l] + rest)[1..] == rest;
  }

  /** Every non-blank line is kept. */
  lemma NonBlankComplete(ls: seq<string>, i: nat)
    requires i < |ls| && !AllSpace(ls[i])
    ensures ls[i] in NonBlank(ls)
  {
    assert ls == ls[..i] + [ls[i]] + ls[i + 1..];
    NonBlankAt(ls[..i], ls[i], ls[i + 1..]);
  }

  /** The non-blank lines of a CSV text. */
  function Lines(text: string): seq<string> {
    NonBlank(SplitLines(text))
  }

  /** `cols[i] || ''`: a column that does not exist reads as the empty string. */
  function Cell(cols: seq<string>, i: int): string {
    if 0 <= i < |cols| then cols[i] else []
  }

  function TrimAll(xs: seq<string>): (r: seq<string>)
    ensures |r| == |xs|
    ensures forall k :: 0 <= k < |r| ==> r[k] == Trim(xs[k])
  {
    if xs == [] then [] else [Trim(xs[0])] + TrimAll(xs[1..])
  }

  function CleanAll(xs: seq<string>): (r: seq<string>)
    ensures |r| == |xs|
    ensures forall k :: 0 <= k < |r| ==> r[k] == CleanName(xs[k])
  {
    if xs == [] then [] else [CleanName(xs[0])] + CleanAll(xs[1..])
  }

  /** `.filter(Boolean)` on strings: drops the empty ones and keeps the order. */
  function NonEmpty(xs: seq<string>): (r: seq<string>)
    ensures |r| <= |xs|
    ensures forall k :: 0 <= k < |r| ==> r[k] != [] && r[k] in xs
  {
    if xs == [] then []
    else (if xs[0] == [] then [] else [xs[0]]) + NonEmpty(xs[1..])
  }

  /** Filtering keeps every non-empty entry. */
  lemma {:induction false} NonEmptyKeeps(xs: seq<string>, x: string)
    requires x in xs && x != []
    ensures x in NonEmpty(xs)
  {
    if xs[0] != x {
      NonEmptyKeeps(xs[1..], x);
    }
  }

  /** All entries are non-empty and trimmed. */
  predicate ItemsOk(xs: seq<string>) {
    forall k :: 0 <= k < |xs| ==> xs[k] != [] && Trimmed(xs[k])
  }

  /** All entries are non-empty canonical ingredient names. */
  predicate IngredientsOk(xs: seq<string>) {
    forall k :: 0 <= k < |xs| ==> xs[k] != [] && Canonical(xs[k])
  }

  /** Trimming every piece gives trimmed pieces. */
  lemma TrimAllTrimmed(xs: seq<string>)
    ensures forall x :: x in TrimAll(xs) ==> Trimmed(x)
  {
  }

  /** A non-blank piece stays, trimmed and non-empty. */
  lemma TrimAllKeeps(xs: seq<string>, x: string)
    requires x in xs && !AllSpace(x)
    ensures Trim(x) in TrimAll(xs) && Trim(x) != []
  {
    var k :| 0 <= k < |xs| && xs[k] == x;
    assert TrimAll(xs)[k] == Trim(x);
  }

  /** Cleaning every piece gives canonical names. */
  lemma CleanAllCanonical(xs: seq<string>)
    ensures forall x :: x in CleanAll(xs) ==> Canonical(x)
  {
    forall k | 0 <= k < |xs|
      ensures Canonical(CleanAll(xs)[k])
    {
      CleanNameFacts(xs[k]);
    }
  }

  /** A non-blank piece stays, cleaned and non-empty. */
  lemma CleanAllKeeps(xs: seq<string>, x: string)
    requires x in xs && !AllSpace(x)
    ensures CleanName(x) in CleanAll(xs) && CleanName(x) != []
  {
    var k :| 0 <= k < |xs| && xs[k] == x;
    assert CleanAll(xs)[k] == CleanName(x);
    CleanNameFacts(x);
  }

  /** A `、`-separated list field (tags, methods, tools). */
  function Items(field: string): seq<string> {
    if field == [] then [] else NonEmpty(TrimAll(Split(field, '、')))
  }

  /** The entries of a list field are trimmed and non-empty. */
  lemma ItemsTrimmed(field: string)
    ensures ItemsOk(Items(field))
  {
    if field != [] {
      TrimAllTrimmed(Split(field, '、'));
    }
  }

  /** Every non-blank piece of a list field is one of its entries, trimmed. */
  lemma ItemsComplete(field: string, x: string)
    requires x in Split(field, '、') && !AllSpace(x)
    ensures Trim(x) in Items(field)
  {
    if field == [] {
      assert Split(field, '、') == [[]];
    } else {
      TrimAllKeeps(Split(field, '、'), x);
      NonEmptyKeeps(TrimAll(Split(field, '、')), Trim(x));
    }
  }

  /** The `、`-separated ingredient field: each entry trimmed and canonicalized, the empty
      ones dropped. */
  function Ingredients(field: string): seq<string> {
    if field == [] then [] else NonEmpty(CleanAll(Split(field, '、')))
  }

  /** The ingredients of a field are non-empty canonical names. */
  lemma IngredientsCanonical(field: string)
    ensures IngredientsOk(Ingredients(field))
  {
    if field != [] {
      CleanAllCanonical(Split(field, '、'));
    }
  }

  /** Every non-blank piece of the ingredient field is one of its ingredients, cleaned. */
  lemma IngredientsComplete(field: string, x: string)
    requires x in Split(field, '、') && !AllSpace(x)
    ensures CleanName(x) in Ingredients(field)
  {
    if field == [] {
      assert Split(field, '、') == [[]];
    } else {
      CleanAllKeeps(Split(field, '、'), x);
      NonEmptyKeeps(CleanAll(Split(field, '、')), CleanName(x));
    }
  }

  // ---------------------------------------------------------------------------------
  // Recipe CSV

  datatype Recipe = Recipe(
    name: string, stuff: seq<string>, difficulty: string,
    tags: seq<string>, methods: seq<string>, tools: seq<string>)

  /** Column positions, -1 for a column that is absent. */
  datatype Columns = Columns(name: int, stuff: int, difficulty: int, tags: int, methods: int, tools: int)

  /** The positions used when the first line is not a header. */
  const DefaultColumns := Columns(0, 1, -1, -1, -1, -1)

  /** `findIndex(h => h === heading)`: the first position of `heading`, or -1. */
  function FindIndex(parts: seq<string>, heading: string): (r: int)
    ensures -1 <= r < |parts|
    ensures r >= 0 ==> parts[r] == heading && forall k :: 0 <= k < r ==> parts[k] != heading
    ensures r == -1 <==> heading !in parts
  {
    if parts == [] then -1
    else if parts[0] == heading then 0
    else
      var r := FindIndex(parts[1..], heading);
      if r == -1 then -1 else r + 1
  }

  /** The first line counts as a header when it names both a `name` and a `stuff` column. */
  predicate IsHeader(parts: seq<string>) {
    "name" in parts && "stuff" in parts
  }

  function HeaderColumns(parts: seq<string>): Columns {
    Columns(FindIndex(parts, "name"), FindIndex(parts, "stuff"), FindIndex(parts, "difficulty"),
            FindIndex(parts, "tags"), FindIndex(parts, "methods"), FindIndex(parts, "tools"))
  }

  /** A header line's columns: `name` and `stuff` are found, each at its first position. */
  lemma HeaderColumnsFound(parts: seq<string>)
    requires IsHeader(parts)
    ensures var idx := HeaderColumns(parts);
      && 0 <= idx.name < |parts| && parts[idx.name] == "name"
      && 0 <= idx.stuff < |parts| && parts[idx.stuff] == "stuff"
      && (idx.tags == -1 <==> "tags" !in parts)
  {
  }

  /** One data line; `None` when the line is skipped. */
  function RecipeRow(line: string, idx: Columns): Option<Recipe> {
    var cols := Split(line, ',');
    if |cols| < 2 then None
    else
      var name := Trim(Cell(cols, idx.name));
      var stuffText := Trim(Cell(cols, idx.stuff));
      if name == [] then None
      else
        Some(Recipe(name, Ingredients(stuffText),
                    if idx.difficulty >= 0 then Trim(Cell(cols, idx.difficulty)) else [],
                    Items(if idx.tags >= 0 then Trim(Cell(cols, idx.tags)) else []),
                    Items(if idx.methods >= 0 then Trim(Cell(cols, idx.methods)) else []),
                    Items(if idx.tools >= 0 then Trim(Cell(cols, idx.tools)) else [])))
  }

  /** A recipe as the reader produces it: a trimmed non-empty name, canonical non-empty
      ingredients, and trimmed non-empty list entries. */
  predicate WellFormed(r: Recipe) {
    && r.name != [] && Trimmed(r.name) && Trimmed(r.difficulty)
    && IngredientsOk(r.stuff) && ItemsOk(r.tags) && ItemsOk(r.methods) && ItemsOk(r.tools)
  }

  /** A recipe built from a trimmed non-empty name, a trimmed difficulty and the list
      fields is well formed. */
  lemma FieldsWellFormed(name: string, stuffText: string, difficulty: string,
                         tags: string, methods: string, tools: string)
    requires name != [] && Trimmed(name) && Trimmed(difficulty)
    ensures WellFormed(Recipe(name, Ingredients(stuffText), difficulty,
                              Items(tags), Items(methods), Items(tools)))
  {
    IngredientsCanonical(stuffText);
    ItemsTrimmed(tags);
    ItemsTrimmed(methods);
    ItemsTrimmed(tools);
  }

  /** A line is skipped exactly when it has fewer than two columns or a blank name. */
  lemma RecipeRowKept(line: string, idx: Columns)
    ensures var cols := Split(line, ',');
      RecipeRow(line, idx).Some? <==> |cols| >= 2 && !AllSpace(Cell(cols, idx.name))
  {
  }

  /** The recipe a line gives is well formed and named by its trimmed name column. */
  lemma RecipeRowFacts(line: string, idx: Columns)
    requires RecipeRow(line, idx).Some?
    ensures WellFormed(RecipeRow(line, idx).value)
    ensures RecipeRow(line, idx).value.name == Trim(Cell(Split(line, ','), idx.name))
  {
    var cols := Split(line, ',');
    var name := Trim(Cell(cols, idx.name));
    var difficulty := if idx.difficulty >= 0 then Trim(Cell(cols, idx.difficulty)) else [];
    var tags := if idx.tags >= 0 then Trim(Cell(cols, idx.tags)) else [];
    var methods := if idx.methods >= 0 then Trim(Cell(cols, idx.methods)) else [];
    var tools := if idx.tools >= 0 then Trim(Cell(cols, idx.tools)) else [];
    assert RecipeRow(line, idx).value
      == Recipe(name, Ingredients(Trim(Cell(cols, idx.stuff))), difficulty,
                Items(tags), Items(methods), Items(tools));
    FieldsWellFormed(name, Trim(Cell(cols, idx.stuff)), difficulty, tags, methods, tools);
  }

  /** The recipes of the data lines `ls`, in order. */
  function RecipeRows(ls: seq<string>, idx: Columns): seq<Recipe> {
    if ls == [] then []
    else
      var r := RecipeRow(ls[|ls| - 1], idx);
      RecipeRows(ls[..|ls| - 1], idx) + (if r.Some? then [r.value] else [])
  }

  /** Reading one more line appends its recipe, if it gives one. */
  lemma RecipeRowsStep(ls: seq<string>, l: string, idx: Columns, row: Option<Recipe>)
    requires row == RecipeRow(l, idx)
    ensures RecipeRows(ls + [l], idx) == RecipeRows(ls, idx) + (if row.Some? then [row.value] else [])
  {
    assert (ls + [l])[..|ls|] == ls;
  }

  /** Reading up to the last line reads the whole tail. */
  lemma RecipeRowsToEnd(ls: seq<string>, start: nat, idx: Columns)
    requires start <= |ls|
    ensures RecipeRows(ls[start..|ls|], idx) == RecipeRows(ls[start..], idx)
  {
    assert ls[start..|ls|] == ls[start..];
  }

  /** The layout the first line selects: whether it is skipped as a header, and which
      columns hold what. */
  function Layout(first: string): (bool, Columns) {
    var parts := TrimAll(Split(first, ','));
    if IsHeader(parts) then (true, HeaderColumns(parts)) else (false, DefaultColumns)
  }

  /** What `parseRecipeCSV` returns for `text`. */
  function ParsedRecipes(text: string): seq<Recipe> {
    var lines := Lines(text);
    if |lines| == 0 then []
    else
      var (skip, idx) := Layout(lines[0]);
      RecipeRows(lines[if skip then 1 else 0..], idx)
  }

  /** `parseRecipeCSV`. */
  method ParseRecipeCsv(text: string) returns (out: seq<Recipe>)
    ensures out == ParsedRecipes(text)
  {
    var lines := Lines(text);
    if |lines| == 0 {
      return [];
    }
    var headerParts := TrimAll(Split(lines[0], ','));
    var start := 0;
    var idx := DefaultColumns;
    if IsHeader(headerParts) {
      idx := HeaderColumns(headerParts);
      start := 1;
    }
    out := ReadRecipeRows(lines, start, idx);
  }

  /** The row loop of `parseRecipeCSV`: reads the recipes of `lines[start..]`. */
  method ReadRecipeRows(lines: seq<string>, start: nat, idx: Columns) returns (out: seq<Recipe>)
    requires start <= |lines|
    ensures out == RecipeRows(lines[start..], idx)
  {
    out := [];
    for i := start to |lines|
      invariant out == RecipeRows(lines[start..i], idx)
    {
      var row := RecipeRow(lines[i], idx);
      assert RecipeRows(lines[start..i + 1], idx) == out + (if row.Some? then [row.value] else []) by {
        assert lines[start..i + 1] == lines[start..i] + [lines[i]];
        RecipeRowsStep(lines[start..i], lines[i], idx, row);
      }
      if row.Some? {
        out := out + [row.value];
      }
    }
    RecipeRowsToEnd(lines, start, idx);
  }

  /** Every recipe read from data lines is well formed, and there are at most as many
      recipes as lines. */
  lemma {:induction false} RecipeRowsWellFormed(ls: seq<string>, idx: Columns)
    ensures |RecipeRows(ls, idx)| <= |ls|
    ensures forall k :: 0 <= k < |RecipeRows(ls, idx)| ==> WellFormed(RecipeRows(ls, idx)[k])
  {
    if ls != [] {
      RecipeRowsWellFormed(ls[..|ls| - 1], idx);
      if RecipeRow(ls[|ls| - 1], idx).Some? {
        RecipeRowFacts(ls[|ls| - 1], idx);
      }
    }
  }

  /** Every line that has at least two columns and a non-blank name becomes a recipe. */
  lemma {:induction false} RecipeRowsComplete(ls: seq<string>, idx: Columns, k: nat)
    requires k < |ls|
    requires |Split(ls[k], ',')| >= 2 && !AllSpace(Cell(Split(ls[k], ','), idx.name))
    ensures RecipeRow(ls[k], idx).Some? && RecipeRow(ls[k], idx).value in RecipeRows(ls, idx)
  {
    RecipeRowKept(ls[k], idx);
    if k < |ls| - 1 {
      assert ls[..|ls| - 1][k] == ls[k];
      RecipeRowsComplete(ls[..|ls| - 1], idx, k);
    }
  }

  /** Every non-blank line other than a header that has at least two columns and a
      non-blank name gives its recipe. */
  lemma ParsedRecipesComplete(text: string, k: nat)
    requires k < |Lines(text)| && (k >= 1 || !Layout(Lines(text)[0]).0)
    requires var cols := Split(Lines(text)[k], ',');
      |cols| >= 2 && !AllSpace(Cell(cols, Layout(Lines(text)[0]).1.name))
    ensures var r := RecipeRow(Lines(text)[k], Layout(Lines(text)[0]).1);
      r.Some? && r.value in ParsedRecipes(text)
  {
    var lines := Lines(text);
    var (skip, idx) := Layout(lines[0]);
    var st := if skip then 1 else 0;
    assert lines[st..][k - st] == lines[k];
    RecipeRowsComplete(lines[st..], idx, k - st);
  }

  /** The text's recipes are well formed, and a header line is never read as a recipe. */
  lemma ParsedRecipesWellFormed(text: string)
    ensures |ParsedRecipes(text)| <= |Lines(text)|
    ensures forall k :: 0 <= k < |ParsedRecipes(text)| ==> WellFormed(ParsedRecipes(text)[k])
    ensures Lines(text) != [] && Layout(Lines(text)[0]).0 ==> |ParsedRecipes(text)| < |Lines(text)|
  {
    var lines := Lines(text);
    if |lines| != 0 {
      var (skip, idx) := Layout(lines[0]);
      RecipeRowsWellFormed(lines[if skip then 1 else 0..], idx);
    }
  }

  // ---------------------------------------------------------------------------------
  // Incompatible-pair CSV

  datatype Pair = Pair(a: string, b: string, reason: string)

  /** Both names are non-empty and canonical, and the reason is trimmed. */
  predicate PairOk(p: Pair) {
    p.a != [] && Canonical(p.a) && p.b != [] && Canonical(p.b) && Trimmed(p.reason)
  }

  /** One data line of the pair file; `None` when the line is skipped. */
  function PairRow(line: string): Option<Pair> {
    var cols := Split(line, ',');
    if |cols| < 2 then None
    else
      var a := CleanName(Cell(cols, 0));
      var b := CleanName(Cell(cols, 1));
      var reason := Trim(Cell(cols, 2));
      if a != [] && b != [] then Some(Pair(a, b, reason)) else None
  }

  /** A line is skipped exactly when it has fewer than two columns or either name is
      blank; the pair it gives is well formed. */
  lemma PairRowFacts(line: string)
    ensures var cols := Split(line, ',');
      PairRow(line).Some? <==> |cols| >= 2 && !AllSpace(cols[0]) && !AllSpace(cols[1])
    ensures PairRow(line).Some? ==> PairOk(PairRow(line).value)
  {
    var cols := Split(line, ',');
    if |cols| >= 2 {
      CleanNameFacts(cols[0]);
      CleanNameFacts(cols[1]);
    }
  }

  function PairRows(ls: seq<string>): seq<Pair> {
    if ls == [] then []
    else
      var p := PairRow(ls[|ls| - 1]);
      PairRows(ls[..|ls| - 1]) + (if p.Some? then [p.value] else [])
  }

  /** Reading one more line appends its pair, if it gives one. */
  lemma PairRowsStep(ls: seq<string>, l: string, p: Option<Pair>)
    requires p == PairRow(l)
    ensures PairRows(ls + [l]) == PairRows(ls) + (if p.Some? then [p.value] else [])
  {
    assert (ls + [l])[..|ls|] == ls;
  }

  /** What `parseIncompatibleCSV` returns: the first line is always taken as a header. */
  function ParsedPairs(text: string): seq<Pair> {
    var lines := Lines(text);
    if |lines| <= 1 then [] else PairRows(lines[1..])
  }

  /** `parseIncompatibleCSV`. */
  method ParseIncompatibleCsv(text: string) returns (res: seq<Pair>)
    ensures res == ParsedPairs(text)
  {
    var lines := Lines(text);
    if |lines| <= 1 {
      return [];
    }
    res := [];
    for i := 1 to |lines|
      invariant res == PairRows(lines[1..i])
    {
      var p := PairRow(lines[i]);
      assert PairRows(lines[1..i + 1]) == res + (if p.Some? then [p.value] else []) by {
        assert lines[1..i + 1] == lines[1..i] + [lines[i]];
        PairRowsStep(lines[1..i], lines[i], p);
      }
      if p.Some? {
        res := res + [p.value];
      }
    }
    assert lines[1..|lines|] == lines[1..];
  }

  lemma {:induction false} PairRowsOk(ls: seq<string>)
    ensures |PairRows(ls)| <= |ls|
    ensures forall k :: 0 <= k < |PairRows(ls)| ==> PairOk(PairRows(ls)[k])
  {
    if ls != [] {
      PairRowsOk(ls[..|ls| - 1]);
      PairRowFacts(ls[|ls| - 1]);
    }
  }

  /** Every line that has at least two columns and two non-blank names gives its pair. */
  lemma {:induction false} PairRowsComplete(ls: seq<string>, k: nat)
    requires k < |ls|
    requires var cols := Split(ls[k], ','); |cols| >= 2 && !AllSpace(cols[0]) && !AllSpace(cols[1])
    ensures PairRow(ls[k]).Some? && PairRow(ls[k]).value in PairRows(ls)
  {
    PairRowFacts(ls[k]);
    if k < |ls| - 1 {
      assert ls[..|ls| - 1][k] == ls[k];
      PairRowsComplete(ls[..|ls| - 1], k);
    }
  }

  /** Every non-blank line after the first that has two non-blank names gives its pair. */
  lemma ParsedPairsComplete(text: string, k: nat)
    requires 1 <= k < |Lines(text)|
    requires var cols := Split(Lines(text)[k], ','); |cols| >= 2 && !AllSpace(cols[0]) && !AllSpace(cols[1])
    ensures PairRow(Lines(text)[k]).Some? && PairRow(Lines(text)[k]).value in ParsedPairs(text)
  {
    var lines := Lines(text);
    assert lines[1..][k - 1] == lines[k];
    PairRowsComplete(lines[1..], k - 1);
  }

  /** Every pair read is well formed, and the first line never contributes one. */
  lemma ParsedPairsOk(text: string)
    ensures |ParsedPairs(text)| < |Lines(text)| || Lines(text) == []
    ensures forall k :: 0 <= k < |ParsedPairs(text)| ==> PairOk(ParsedPairs(text)[k])
  {
    var lines := Lines(text);
    if |lines| > 1 {
      PairRowsOk(lines[1..]);
    }
  }

  // ---------------------------------------------------------------------------------
  // Conflicts

  /** The canonical names of a selection, as a set. */
  function Chosen(selected: seq<string>): set<string> {
    set x | x in selected :: Canonicalize(x)
  }

  /** The message shown for an incompatible pair. */
  function Message(p: Pair): string {
    p.a + " × " + p.b + "：" + p.reason
  }

  /** The messages of the pairs whose two names are both chosen, in pair order. */
  function Conflicts(chosen: set<string>, pairs: seq<Pair>): seq<string> {
    if pairs == [] then []
    else
      var p := pairs[|pairs| - 1];
      Conflicts(chosen, pairs[..|pairs| - 1])
        + (if p.a in chosen && p.b in chosen then [Message(p)] else [])
  }

  /** `findConflicts`, with the pair list as a parameter. */
  method FindConflicts(selected: seq<string>, pairs: seq<Pair>) returns (conflicts: seq<string>)
    ensures conflicts == Conflicts(Chosen(selected), pairs)
  {
    var chosen := set x | x in selected :: Canonicalize(x);
    conflicts := [];
    for i := 0 to |pairs|
      invariant conflicts == Conflicts(chosen, pairs[..i])
    {
      assert pairs[..i + 1][..i] == pairs[..i];
      var p := pairs[i];
      if p.a in chosen && p.b in chosen {
        conflicts := conflicts + [Message(p)];
      }
    }
    assert pairs[..|pairs|] == pairs;
  }

  /** A message is reported exactly when some pair has both of its names chosen. */
  lemma {:induction false} ConflictsExactly(chosen: set<string>, pairs: seq<Pair>, m: string)
    ensures m in Conflicts(chosen, pairs) <==>
            exists p :: p in pairs && p.a in chosen && p.b in chosen && m == Message(p)
  {
    if pairs != [] {
      var init := pairs[..|pairs| - 1];
      var p := pairs[|pairs| - 1];
      ConflictsExactly(chosen, init, m);
      assert pairs == init + [p];
      assert forall q :: q in pairs <==> q in init || q == p;
    }
  }

  /** There is at most one message per pair, and choosing more names never drops one. */
  lemma {:induction false} ConflictsMonotone(c1: set<string>, c2: set<string>, pairs: seq<Pair>)
    requires c1 <= c2
    ensures |Conflicts(c1, pairs)| <= |Conflicts(c2, pairs)| <= |pairs|
    ensures forall m :: m in Conflicts(c1, pairs) ==> m in Conflicts(c2, pairs)
  {
    if pairs != [] {
      ConflictsMonotone(c1, c2, pairs[..|pairs| - 1]);
    }
  }

  /** Selecting a name of the table is the same as selecting its target. */
  lemma AliasSelectsTarget(selected: seq<string>, alias: string)
    requires Resolve(alias, 0).Some?
    ensures Chosen(selected + [alias]) == Chosen(selected + [Resolve(alias, 0).value])
  {
    var t := Resolve(alias, 0).value;
    ResolveFound(alias);
    TrimOfTrimmed(t);
    assert Canonicalize(alias) == t;
    assert Canonicalize(t) == t;
    assert forall x :: x in selected + [alias] <==> x in selected || x == alias;
    assert forall x :: x in selected + [t] <==> x in selected || x == t;
  }

  // ---------------------------------------------------------------------------------
  // Recommendation

  /** A recipe with its match statistics; the score is `matchCount / totalStuff`. */
  datatype Scored = Scored(recipe: Recipe, matchCount: nat, totalStuff: nat, isFullMatch: bool)

  /** How many entries of `stuff` (with repetition) are among the selected names. */
  function MatchCount(stuff: seq<string>, selected: seq<string>): (n: nat)
    ensures n <= |stuff|
  {
    if stuff == [] then 0
    else MatchCount(stuff[..|stuff| - 1], selected) + (if stuff[|stuff| - 1] in selected then 1 else 0)
  }

  /** Every entry is matched exactly when the count reaches the length, and none is
      matched exactly when the count is zero. */
  lemma {:induction false} MatchCountExtremes(stuff: seq<string>, selected: seq<string>)
    ensures MatchCount(stuff, selected) == |stuff| <==> forall k :: 0 <= k < |stuff| ==> stuff[k] in selected
    ensures MatchCount(stuff, selected) == 0 <==> forall k :: 0 <= k < |stuff| ==> stuff[k] !in selected
  {
    if stuff != [] {
      var init := stuff[..|stuff| - 1];
      MatchCountExtremes(init, selected);
      assert forall k :: 0 <= k < |init| ==> init[k] == stuff[k];
    }
  }

  function CanonAll(xs: seq<string>): (r: seq<string>)
    ensures |r| == |xs|
    ensures forall k :: 0 <= k < |r| ==> r[k] == Canonicalize(xs[k])
  {
    if xs == [] then [] else [Canonicalize(xs[0])] + CanonAll(xs[1..])
  }

  /** The statistics of one recipe against the (canonical) selection. */
  function Score(r: Recipe, selected: seq<string>): (x: Scored)
    ensures x.recipe == r && x.totalStuff == |r.stuff| && x.matchCount <= x.totalStuff
    ensures x.isFullMatch <==> r.stuff != [] && forall k :: 0 <= k < |r.stuff| ==> Canonicalize(r.stuff[k]) in selected
    ensures x.matchCount == 0 <==> forall k :: 0 <= k < |r.stuff| ==> Canonicalize(r.stuff[k]) !in selected
  {
    var stuff := CanonAll(r.stuff);
    var m := MatchCount(stuff, selected);
    MatchCountExtremes(stuff, selected);
    Scored(r, m, |stuff|, |stuff| > 0 && m == |stuff|)
  }

  /** The recipes with at least one match, scored, in their original order. */
  function Candidates(recipes: seq<Recipe>, selected: seq<string>): (r: seq<Scored>)
    ensures forall k :: 0 <= k < |r| ==>
      (r[k].matchCount > 0 && r[k].recipe in recipes && r[k] == Score(r[k].recipe, selected))
  {
    if recipes == [] then []
    else
      var x := Score(recipes[0], selected);
      (if x.matchCount > 0 then [x] else []) + Candidates(recipes[1..], selected)
  }

  /** Every recipe with a match is a candidate. */
  lemma {:induction false} CandidatesComplete(recipes: seq<Recipe>, selected: seq<string>, r: Recipe)
    requires r in recipes && Score(r, selected).matchCount > 0
    ensures Score(r, selected) in Candidates(recipes, selected)
  {
    if recipes[0] != r {
      CandidatesComplete(recipes[1..], selected, r);
    }
  }

  /** The page's comparator: `a` sorts strictly before `b`.  Full matches come first, then
      the higher score (compared by cross-multiplication), then the higher match count,
      then the smaller ingredient list. */
  predicate Precedes(a: Scored, b: Scored) {
    if a.isFullMatch != b.isFullMatch then a.isFullMatch
    else if a.matchCount * b.totalStuff != b.matchCount * a.totalStuff then
      a.matchCount * b.totalStuff > b.matchCount * a.totalStuff
    else if a.matchCount != b.matchCount then a.matchCount > b.matchCount
    else a.totalStuff < b.totalStuff
  }

  /** The comparator returns 0: neither precedes the other. */
  predicate SameRank(a: Scored, b: Scored) {
    a.isFullMatch == b.isFullMatch && a.matchCount == b.matchCount && a.totalStuff == b.totalStuff
  }

  /** For scored recipes with a match, the comparator is asymmetric and its ties are
      exactly the equal statistics. */
  lemma PrecedesOrder(a: Scored, b: Scored)
    requires a.matchCount > 0 && b.matchCount > 0
    ensures Precedes(a, b) ==> !Precedes(b, a)
    ensures !Precedes(a, b) && !Precedes(b, a) <==> SameRank(a, b)
  {
    if !Precedes(a, b) && !Precedes(b, a) {
      assert a.matchCount == b.matchCount;
      assert a.matchCount * b.totalStuff == a.matchCount * a.totalStuff;
    }
  }

  /** Inserts `x` after every element that strictly precedes it and before the rest. */
  function Insert(x: Scored, s: seq<Scored>): (r: seq<Scored>)
    ensures |r| == |s| + 1
    ensures multiset(r) == multiset(s) + multiset{x}
  {
    if s == [] || !Precedes(s[0], x) then [x] + s
    else
      assert s == [s[0]] + s[1..];
      [s[0]] + Insert(x, s[1..])
  }

  /** The stable sort of the scored recipes by `Precedes`. */
  function Sort(s: seq<Scored>): (r: seq<Scored>)
    ensures |r| == |s|
    ensures multiset(r) == multiset(s)
  {
    if s == [] then []
    else
      assert s == [s[0]] + s[1..];
      Insert(s[0], Sort(s[1..]))
  }

  /** No element is strictly preceded by the one after it. */
  predicate Ordered(s: seq<Scored>) {
    forall k :: 0 <= k < |s| - 1 ==> !Precedes(s[k + 1], s[k])
  }

  predicate AllMatch(s: seq<Scored>) {
    forall k :: 0 <= k < |s| ==> s[k].matchCount > 0
  }

  lemma {:induction false} InsertOrdered(x: Scored, s: seq<Scored>)
    requires Ordered(s) && AllMatch(s) && x.matchCount > 0
    ensures Ordered(Insert(x, s)) && AllMatch(Insert(x, s))
    ensures Insert(x, s)[0] == x || Insert(x, s)[0] == s[0]
  {
    if s != [] && Precedes(s[0], x) {
      PrecedesOrder(s[0], x);
      InsertOrdered(x, s[1..]);
    }
  }

  /** The sort orders the scored recipes. */
  lemma {:induction false} SortOrdered(s: seq<Scored>)
    requires AllMatch(s)
    ensures Ordered(Sort(s)) && AllMatch(Sort(s))
  {
    if s != [] {
      SortOrdered(s[1..]);
      InsertOrdered(s[0], Sort(s[1..]));
    }
  }

  /** The elements of `s` that tie with `k`, in order. */
  function OfRank(s: seq<Scored>, k: Scored): seq<Scored> {
    if s == [] then [] else (if SameRank(s[0], k) then [s[0]] else []) + OfRank(s[1..], k)
  }

  lemma {:induction false} InsertOfRank(x: Scored, s: seq<Scored>, k: Scored)
    ensures OfRank(Insert(x, s), k) == (if SameRank(x, k) then [x] else []) + OfRank(s, k)
  {
    if s != [] && Precedes(s[0], x) {
      InsertOfRank(x, s[1..], k);
      assert !SameRank(s[0], x);
    }
  }

  /** The sort is stable: the elements of every tie class keep their original order. */
  lemma {:induction false} SortStable(s: seq<Scored>, k: Scored)
    ensures OfRank(Sort(s), k) == OfRank(s, k)
  {
    if s != [] {
      SortStable(s[1..], k);
      InsertOfRank(s[0], Sort(s[1..]), k);
    }
  }

  /** In an ordered list the full matches form a prefix. */
  lemma {:induction false} FullMatchesFirst(s: seq<Scored>, i: nat, j: nat)
    requires Ordered(s) && i <= j < |s| && s[j].isFullMatch
    ensures s[i].isFullMatch
    decreases j - i
  {
    if i < j {
      FullMatchesFirst(s, i + 1, j);
      assert !Precedes(s[i + 1], s[i]);
    }
  }

  /** `array.slice(0, n)`: a negative `n` counts from the end. */
  function Take<T>(s: seq<T>, n: int): (r: seq<T>)
    ensures r <= s
    ensures n >= 0 ==> |r| == if n < |s| then n else |s|
    ensures n < 0 ==> |r| == if |s| + n > 0 then |s| + n else 0
  {
    if n >= 0 then (if n < |s| then s[..n] else s)
    else if |s| + n > 0 then s[..|s| + n] else []
  }

  /** `recommendRecipes`, with the recipe list as a parameter. */
  function Recommend(selectedRaw: seq<string>, recipes: seq<Recipe>, topN: int): seq<Scored> {
    var selected := CanonAll(selectedRaw);
    if |recipes| == 0 then [] else Take(Sort(Candidates(recipes, selected)), topN)
  }

  /** The candidates, ranked. */
  function Ranked(recipes: seq<Recipe>, selected: seq<string>): seq<Scored> {
    Sort(Candidates(recipes, selected))
  }

  /** The ranked list holds each recipe with a match, and nothing else, in comparator
      order. */
  lemma RankedFacts(recipes: seq<Recipe>, selected: seq<string>)
    ensures |Ranked(recipes, selected)| <= |recipes|
    ensures Ordered(Ranked(recipes, selected))
    ensures var s := Ranked(recipes, selected);
      forall k :: 0 <= k < |s| ==>
        (s[k].recipe in recipes && s[k].matchCount > 0 && s[k] == Score(s[k].recipe, selected))
  {
    var c := Candidates(recipes, selected);
    SortOrdered(c);
    CandidatesLength(recipes, selected);
    SortKeeps(c);
  }

  /** The sort keeps only elements of its input. */
  lemma SortKeeps(s: seq<Scored>)
    ensures forall k :: 0 <= k < |Sort(s)| ==> Sort(s)[k] in s
  {
    forall k | 0 <= k < |Sort(s)|
      ensures Sort(s)[k] in s
    {
      assert Sort(s)[k] in multiset(Sort(s));
    }
  }

  /** Every recipe with a match is ranked. */
  lemma RankedComplete(recipes: seq<Recipe>, selected: seq<string>, x: Recipe)
    requires x in recipes && Score(x, selected).matchCount > 0
    ensures Score(x, selected) in Ranked(recipes, selected)
  {
    var c := Candidates(recipes, selected);
    CandidatesComplete(recipes, selected, x);
    assert Score(x, selected) in multiset(Sort(c));
  }

  /** The recommendations are the first `topN` of the ranked list. */
  lemma RecommendPrefix(selectedRaw: seq<string>, recipes: seq<Recipe>, topN: int)
    ensures var r := Recommend(selectedRaw, recipes, topN);
      r <= Ranked(recipes, CanonAll(selectedRaw))
      && (topN >= |recipes| ==> r == Ranked(recipes, CanonAll(selectedRaw)))
  {
    RankedFacts(recipes, CanonAll(selectedRaw));
  }

  /** There are at most `topN` recommendations, and no more than recipes. */
  lemma RecommendBounds(selectedRaw: seq<string>, recipes: seq<Recipe>, topN: int)
    ensures |Recommend(selectedRaw, recipes, topN)| <= |recipes|
    ensures topN >= 0 ==> |Recommend(selectedRaw, recipes, topN)| <= topN
  {
    RecommendPrefix(selectedRaw, recipes, topN);
    RankedFacts(recipes, CanonAll(selectedRaw));
  }

  /** Each recommendation is a recipe of the list with at least one selected ingredient,
      carrying its own statistics. */
  lemma RecommendItems(selectedRaw: seq<string>, recipes: seq<Recipe>, topN: int)
    ensures var r := Recommend(selectedRaw, recipes, topN);
      forall k :: 0 <= k < |r| ==>
        (r[k].recipe in recipes && r[k].matchCount > 0
         && r[k] == Score(r[k].recipe, CanonAll(selectedRaw)))
  {
    RecommendPrefix(selectedRaw, recipes, topN);
    RankedFacts(recipes, CanonAll(selectedRaw));
    var r := Recommend(selectedRaw, recipes, topN);
    var s := Ranked(recipes, CanonAll(selectedRaw));
    assert forall k :: 0 <= k < |r| ==> r[k] == s[k];
  }

  /** The recommendations are ranked by the comparator, with the full matches first. */
  lemma RecommendOrdered(selectedRaw: seq<string>, recipes: seq<Recipe>, topN: int)
    ensures Ordered(Recommend(selectedRaw, recipes, topN))
    ensures var r := Recommend(selectedRaw, recipes, topN);
      forall i, j :: 0 <= i <= j < |r| && r[j].isFullMatch ==> r[i].isFullMatch
  {
    RecommendPrefix(selectedRaw, recipes, topN);
    RankedFacts(recipes, CanonAll(selectedRaw));
    var r := Recommend(selectedRaw, recipes, topN);
    var s := Ranked(recipes, CanonAll(selectedRaw));
    assert forall k :: 0 <= k < |r| ==> r[k] == s[k];
    assert Ordered(r);
    forall i, j | 0 <= i <= j < |r| && r[j].isFullMatch
      ensures r[i].isFullMatch
    {
      FullMatchesFirst(r, i, j);
    }
  }

  /** When `topN` covers the list, every recipe with a match is recommended. */
  lemma RecommendComplete(selectedRaw: seq<string>, recipes: seq<Recipe>, topN: int, x: Recipe)
    requires topN >= |recipes| && x in recipes
    requires Score(x, CanonAll(selectedRaw)).matchCount > 0
    ensures Score(x, CanonAll(selectedRaw)) in Recommend(selectedRaw, recipes, topN)
  {
    RecommendPrefix(selectedRaw, recipes, topN);
    RankedComplete(recipes, CanonAll(selectedRaw), x);
  }

  lemma {:induction false} CandidatesLength(recipes: seq<Recipe>, selected: seq<string>)
    ensures |Candidates(recipes, selected)| <= |recipes|
  {
    if recipes != [] {
      CandidatesLength(recipes[1..], selected);
    }
  }

  /** The ranking of the whole candidate list is stable. */
  lemma RecommendStable(selectedRaw: seq<string>, recipes: seq<Recipe>, k: Scored)
    requires |recipes| > 0
    ensures var c := Candidates(recipes, CanonAll(selectedRaw));
      OfRank(Recommend(selectedRaw, recipes, |recipes|), k) == OfRank(c, k)
  {
    var c := Candidates(recipes, CanonAll(selectedRaw));
    CandidatesLength(recipes, CanonAll(selectedRaw));
    SortStable(c, k);
  }
}
