// Loading the store table (RestaurantLoader.cpp): the header line mapped to
// column positions, each data line cut into fields by a quote-aware splitter
// and trimmed, the business type taken from its column or inferred from the
// store's name, and the built-in table used when no file is available.
module Loader {
  import opened Common

  datatype Maybe<T> = Nothing | Just(value: T)

  // ------------------------------------------------------------ characters

  /** The characters `trim` removes: space and tab. */
  predicate Blank(c: char) { c == ' ' || c == '\t' }

  ghost predicate AllBlank(s: string) { forall i :: 0 <= i < |s| ==> Blank(s[i]) }

  /** `::tolower` in the C locale: only 'A'..'Z' change. */
  function LowerChar(c: char): char {
    if 'A' <= c <= 'Z' then (c as int + 32) as char else c
  }

  /** The string lower-cased one character at a time, as `transform(..., ::tolower)` does. */
  function Lower(s: string): (r: string)
    ensures |r| == |s| && forall i :: 0 <= i < |s| ==> r[i] == LowerChar(s[i])
  {
    seq(|s|, i requires 0 <= i < |s| => LowerChar(s[i]))
  }

  /** Lower-casing twice is lower-casing once. */
  lemma LowerIdempotent(s: string)
    ensures Lower(Lower(s)) == Lower(s)
  {
    assert forall i :: 0 <= i < |s| ==> LowerChar(LowerChar(s[i])) == LowerChar(s[i]);
  }

  /** `s` occurs somewhere in `text` (`find` does not return `npos`). */
  predicate Contains(text: string, s: string)
    decreases |text|
  {
    |s| <= |text| && (text[..|s|] == s || (text != [] && Contains(text[1..], s)))
  }

  // ------------------------------------------------------------------ trim

  /** `s` without its leading blanks. */
  function DropLeading(s: string): (r: string)
    ensures |r| <= |s|
  {
    if s != [] && Blank(s[0]) then DropLeading(s[1..]) else s
  }

  /** `s` without its trailing blanks. */
  function DropTrailing(s: string): (r: string)
    ensures |r| <= |s|
  {
    if s != [] && Blank(s[|s| - 1]) then DropTrailing(s[..|s| - 1]) else s
  }

  /** What `DropLeading` removes is a run of blanks at the front, and what it keeps starts with no blank. */
  lemma {:induction false} DropLeadingShape(s: string)
    ensures var r := DropLeading(s);
            r == s[|s| - |r|..] && AllBlank(s[..|s| - |r|]) && (r == [] || !Blank(r[0]))
  {
    if s != [] && Blank(s[0]) {
      DropLeadingShape(s[1..]);
      var r := DropLeading(s);
      assert s[..|s| - |r|] == [s[0]] + s[1..][..|s| - 1 - |r|];
    }
  }

  /** What `DropTrailing` removes is a run of blanks at the back, and what it keeps ends with no blank. */
  lemma {:induction false} DropTrailingShape(s: string)
    ensures var r := DropTrailing(s);
            r == s[..|r|] && AllBlank(s[|r|..]) && (r == [] || !Blank(r[|r| - 1]))
  {
    if s != [] && Blank(s[|s| - 1]) {
      var p := s[..|s| - 1];
      DropTrailingShape(p);
      var r := DropTrailing(s);
      assert s[|r|..] == p[|r|..] + [s[|s| - 1]];
    }
  }

  /** What trimming leaves of `s`: the leading blanks erased, then the trailing ones. */
  function Trimmed(s: string): string {
    DropTrailing(DropLeading(s))
  }

  /**
   * The trimmed string is the part of `s` between a run of blanks at the
   * front and a run of blanks at the back, and it neither starts nor ends
   * with a blank.
   */
  lemma TrimmedIsCore(s: string)
    ensures var t := Trimmed(s); var k := |s| - |DropLeading(s)|;
            k + |t| <= |s| && s[k..k + |t|] == t && AllBlank(s[..k]) && AllBlank(s[k + |t|..]) &&
            (t == [] || (!Blank(t[0]) && !Blank(t[|t| - 1])))
  {
    var d := DropLeading(s);
    var t := DropTrailing(d);
    var k := |s| - |d|;
    DropLeadingShape(s);
    DropTrailingShape(d);
    assert s[k..k + |t|] == d[..|t|];
    assert s[k + |t|..] == d[|t|..];
  }

  /** A string is its own trim exactly when it neither starts nor ends with a blank. */
  lemma TrimmedFixed(s: string)
    ensures Trimmed(s) == s <==> (s == [] || (!Blank(s[0]) && !Blank(s[|s| - 1])))
  {
    if s != [] && !Blank(s[0]) && !Blank(s[|s| - 1]) {
      assert DropLeading(s) == s;
    }
  }

  /** Trimming twice is trimming once. */
  lemma TrimIdempotent(s: string)
    ensures Trimmed(Trimmed(s)) == Trimmed(s)
  {
    TrimmedIsCore(s);
    TrimmedFixed(Trimmed(s));
  }

  /** `find_first_not_of(" \t")`, with `|s|` standing for `npos`. */
  method FindFirstNotBlank(s: string) returns (first: int)
    ensures 0 <= first <= |s| && (forall i :: 0 <= i < first ==> Blank(s[i])) && (first == |s| || !Blank(s[first]))
  {
    first := 0;
    while first < |s| && Blank(s[first])
      invariant 0 <= first <= |s| && forall i :: 0 <= i < first ==> Blank(s[i])
    {
      first := first + 1;
    }
  }

  /** `find_last_not_of(" \t") + 1`: the length of `s` up to its last non-blank character, 0 when there is none. */
  method FindLastNotBlank(s: string) returns (last: int)
    ensures 0 <= last <= |s| && (forall i :: last <= i < |s| ==> Blank(s[i])) && (last == 0 || !Blank(s[last - 1]))
  {
    last := |s|;
    while last > 0 && Blank(s[last - 1])
      invariant 0 <= last <= |s| && forall i :: last <= i < |s| ==> Blank(s[i])
    {
      last := last - 1;
    }
  }

  /** Cutting at the first non-blank character is dropping the leading blanks. */
  lemma {:induction false} LeadingCut(s: string, first: int)
    requires 0 <= first <= |s| && (forall i :: 0 <= i < first ==> Blank(s[i])) && (first == |s| || !Blank(s[first]))
    ensures DropLeading(s) == s[first..]
  {
    if first > 0 {
      LeadingCut(s[1..], first - 1);
      assert s[1..][first - 1..] == s[first..];
    }
  }

  /** Cutting after the last non-blank character is dropping the trailing blanks. */
  lemma {:induction false} TrailingCut(s: string, last: int)
    requires 0 <= last <= |s| && (forall i :: last <= i < |s| ==> Blank(s[i])) && (last == 0 || !Blank(s[last - 1]))
    ensures DropTrailing(s) == s[..last]
  {
    if last < |s| {
      TrailingCut(s[..|s| - 1], last);
      assert s[..|s| - 1][..last] == s[..last];
    }
  }

  /**
   * The two `erase` calls of the loader: everything before the first
   * character that is not a space or tab, then everything after the last one.
   */
  method Trim(s: string) returns (v: string)
    ensures v == Trimmed(s)
  {
    var first := FindFirstNotBlank(s);
    LeadingCut(s, first);
    v := s[first..];
    var last := FindLastNotBlank(v);
    TrailingCut(v, last);
    v := v[..last];
  }

  /** Every field trimmed. */
  function TrimAll(fs: seq<string>): (r: seq<string>)
    ensures |r| == |fs|
  {
    seq(|fs|, i requires 0 <= i < |fs| => Trimmed(fs[i]))
  }

  /** The loader's pass over the fields of a row, trimming each in place. */
  method TrimFields(values: seq<string>) returns (vs: seq<string>)
    ensures vs == TrimAll(values)
  {
    vs := values;
    for k := 0 to |vs|
      invariant |vs| == |values|
      invariant forall i :: 0 <= i < k ==> vs[i] == Trimmed(values[i])
      invariant vs[k..] == values[k..]
    {
      var t := Trim(vs[k]);
      assert vs[k] == values[k] by { assert vs[k..][0] == values[k..][0]; }
      vs := vs[k := t];
    }
  }

  // -------------------------------------------------------------- data rows

  /** The splitter's state after some characters: the fields finished so far, the one being built, and whether a quote is open. */
  datatype Split = Split(done: seq<string>, current: string, inQuotes: bool)

  /** One character of a data line: a quote toggles the quote state, a comma outside quotes ends a field, anything else is kept. */
  function Step(st: Split, c: char): Split {
    if c == '"' then st.(inQuotes := !st.inQuotes)
    else if c == ',' && !st.inQuotes then Split(st.done + [st.current], "", st.inQuotes)
    else st.(current := st.current + [c])
  }

  /** The splitter's state after reading `s`. */
  function Scan(s: string): Split {
    if s == [] then Split([], "", false) else Step(Scan(s[..|s| - 1]), s[|s| - 1])
  }

  /** The fields of a data line: those finished, then the last one. */
  function Fields(line: string): (fs: seq<string>)
    ensures |fs| >= 1
  {
    Scan(line).done + [Scan(line).current]
  }

  /** A quote is open after `s` when `s` holds an odd number of quotes. */
  predicate InQuotes(s: string) { Occurrences(s, '"') % 2 == 1 }

  /** The commas of `s` that stand outside quotes. */
  function Separators(s: string): nat {
    if s == [] then 0
    else Separators(s[..|s| - 1]) + (if s[|s| - 1] == ',' && !InQuotes(s[..|s| - 1]) then 1 else 0)
  }

  /** `s` with every quote removed. */
  function Unquoted(s: string): string {
    if s == [] then [] else Unquoted(s[..|s| - 1]) + (if s[|s| - 1] == '"' then [] else [s[|s| - 1]])
  }

  /** The fields written back with a comma between each two. */
  function Join(fs: seq<string>): string
    requires |fs| >= 1
  {
    if |fs| == 1 then fs[0] else Join(fs[..|fs| - 1]) + "," + fs[|fs| - 1]
  }

  lemma JoinSnoc(fs: seq<string>, f: string)
    requires |fs| >= 1
    ensures Join(fs + [f]) == Join(fs) + "," + f
  {
    assert (fs + [f])[..|fs|] == fs;
  }

  lemma JoinExtendLast(fs: seq<string>, f: string, c: char)
    ensures Join(fs + [f + [c]]) == Join(fs + [f]) + [c]
  {
    if fs != [] {
      JoinSnoc(fs, f + [c]);
      JoinSnoc(fs, f);
    }
  }

  /** The quote state follows the parity of quotes read, and one field is finished per comma outside quotes. */
  lemma {:induction false} ScanCounts(s: string)
    ensures Scan(s).inQuotes == InQuotes(s) && |Scan(s).done| == Separators(s)
  {
    if s != [] {
      var p, c := s[..|s| - 1], s[|s| - 1];
      ScanCounts(p);
      assert s == p + [c];
      assert Occurrences(s, '"') == Occurrences(p, '"') + (if c == '"' then 1 else 0);
    }
  }

  /** The splitter's fields, joined, give back what was read without its quotes. */
  lemma {:induction false} ScanJoin(s: string)
    ensures Join(Scan(s).done + [Scan(s).current]) == Unquoted(s)
  {
    if s != [] {
      var p, c := s[..|s| - 1], s[|s| - 1];
      ScanJoin(p);
      var st := Scan(p);
      if c == '"' {
      } else if c == ',' && !st.inQuotes {
        JoinSnoc(st.done + [st.current], "");
        assert st.done + [st.current] + [""] == st.done + [st.current, ""];
      } else {
        JoinExtendLast(st.done, st.current, c);
      }
    }
  }

  /** No quote ever enters a field. */
  lemma {:induction false} ScanNoQuote(s: string)
    ensures '"' !in Scan(s).current && forall f :: f in Scan(s).done ==> '"' !in f
  {
    if s != [] {
      ScanNoQuote(s[..|s| - 1]);
    }
  }

  /** Without quotes, no comma enters a field. */
  lemma {:induction false} ScanPlain(s: string)
    requires '"' !in s
    ensures ',' !in Scan(s).current && forall f :: f in Scan(s).done ==> ',' !in f
  {
    if s != [] {
      var p := s[..|s| - 1];
      assert '"' !in p;
      ScanPlain(p);
      ScanCounts(p);
      OccurrencesPositive(p, '"');
    }
  }

  /** Writing the fields back with commas gives the line without its quotes. */
  lemma FieldsJoin(line: string)
    ensures Join(Fields(line)) == Unquoted(line)
  {
    ScanJoin(line);
  }

  /** A line has one field more than it has commas outside quotes. */
  lemma FieldsCount(line: string)
    ensures |Fields(line)| == Separators(line) + 1
  {
    ScanCounts(line);
  }

  /** No field keeps a quote character. */
  lemma FieldsNoQuote(line: string)
    ensures forall f :: f in Fields(line) ==> '"' !in f
  {
    ScanNoQuote(line);
  }

  /** On a line without quotes the fields are exactly the pieces between commas. */
  lemma FieldsPlain(line: string)
    requires '"' !in line
    ensures Join(Fields(line)) == line && forall f :: f in Fields(line) ==> ',' !in f
  {
    ScanJoin(line);
    ScanPlain(line);
    UnquotedPlain(line);
  }

  lemma {:induction false} UnquotedPlain(s: string)
    requires '"' !in s
    ensures Unquoted(s) == s
  {
    if s != [] {
      UnquotedPlain(s[..|s| - 1]);
      assert s == s[..|s| - 1] + [s[|s| - 1]];
    }
  }

  /** The loader's character loop over a data line. */
  method SplitLine(line: string) returns (values: seq<string>)
    ensures values == Fields(line)
  {
    var inQuotes := false;
    var current := "";
    values := [];
    for i := 0 to |line|
      invariant Split(values, current, inQuotes) == Scan(line[..i])
    {
      var c := line[i];
      assert line[..i + 1][..i] == line[..i];
      if c == '"' {
        inQuotes := !inQuotes;
      } else if c == ',' && !inQuotes {
        values := values + [current];
        current := "";
      } else {
        current := current + [c];
      }
    }
    assert line[..|line|] == line;
    values := values + [current];
  }

  // ----------------------------------------------------------------- header

  /** The header line cut at every comma, quotes or not. */
  function Cuts(s: string): (p: seq<string>)
    ensures |p| >= 1
  {
    if s == [] then [""]
    else
      var p := Cuts(s[..|s| - 1]);
      if s[|s| - 1] == ',' then p + [""] else p[..|p| - 1] + [p[|p| - 1] + [s[|s| - 1]]]
  }

  /**
   * The cells `getline(..., ',')` reads from the header line: the pieces
   * between commas, except that an empty last piece (an empty line, or one
   * ending in a comma) is never read.
   */
  function HeaderCells(line: string): seq<string> {
    var p := Cuts(line);
    if p[|p| - 1] == "" then p[..|p| - 1] else p
  }

  /** On a line without quotes the header's pieces and a data line's fields agree. */
  lemma {:induction false} CutsArePlainFields(s: string)
    requires '"' !in s
    ensures Cuts(s) == Fields(s)
  {
    if s != [] {
      var p, c := s[..|s| - 1], s[|s| - 1];
      assert '"' !in p;
      CutsArePlainFields(p);
      ScanCounts(p);
      OccurrencesPositive(p, '"');
      var st := Scan(p);
      assert Cuts(p) == st.done + [st.current];
      if c == ',' {
        assert Fields(s) == st.done + [st.current] + [""];
      } else {
        assert Fields(s) == st.done + [st.current + [c]];
        assert (st.done + [st.current])[..|st.done|] == st.done;
      }
    }
  }

  /** Column positions found in the header, -1 for a name that is not there. */
  datatype Columns = Columns(storeId: int, storeName: int, branch: int, bags: int, rating: int, price: int,
                             longitude: int, latitude: int, businessType: int)

  const NoColumns := Columns(-1, -1, -1, -1, -1, -1, -1, -1, -1)

  /**
   * The position of the last header column whose lower-cased name is one of
   * `names` (each later match overwrites the index), or -1 when none is.
   */
  function ColumnOf(cols: seq<string>, names: set<string>): (k: int)
    ensures -1 <= k < |cols|
    ensures k >= 0 ==> Lower(cols[k]) in names
    ensures forall j :: k < j < |cols| ==> Lower(cols[j]) !in names
  {
    if cols == [] then -1
    else if Lower(cols[|cols| - 1]) in names then |cols| - 1
    else ColumnOf(cols[..|cols| - 1], names)
  }

  /** Where each named column sits in the trimmed header cells; `type` stands for `business_type` too. */
  function HeaderIndex(cols: seq<string>): Columns {
    Columns(ColumnOf(cols, {"store_id"}), ColumnOf(cols, {"store_name"}), ColumnOf(cols, {"branch"}),
            ColumnOf(cols, {"average_bags_at_9am"}), ColumnOf(cols, {"average_overall_rating"}),
            ColumnOf(cols, {"price"}), ColumnOf(cols, {"longitude"}), ColumnOf(cols, {"latitude"}),
            ColumnOf(cols, {"business_type", "type"}))
  }

  /** All eight required columns were found. */
  predicate HasRequired(c: Columns) {
    c.storeId != -1 && c.storeName != -1 && c.branch != -1 && c.bags != -1 &&
    c.rating != -1 && c.price != -1 && c.longitude != -1 && c.latitude != -1
  }

  /** Every required column lies among the first `n` fields, and the optional one is -1 or does too. */
  predicate Within(c: Columns, n: int) {
    0 <= c.storeId < n && 0 <= c.storeName < n && 0 <= c.branch < n && 0 <= c.bags < n &&
    0 <= c.rating < n && 0 <= c.price < n && 0 <= c.longitude < n && 0 <= c.latitude < n &&
    -1 <= c.businessType < n
  }

  lemma ColumnOfSnoc(cols: seq<string>, col: string, names: set<string>)
    ensures ColumnOf(cols + [col], names) == if Lower(col) in names then |cols| else ColumnOf(cols, names)
  {
    assert (cols + [col])[..|cols|] == cols;
  }

  /** The header loop: each cell trimmed and kept, and its lower-cased name matched against the known columns. */
  method MapHeader(cells: seq<string>) returns (cols: seq<string>, idx: Columns)
    ensures cols == TrimAll(cells) && idx == HeaderIndex(cols)
  {
    cols, idx := [], NoColumns;
    for k := 0 to |cells|
      invariant |cols| == k && forall i :: 0 <= i < k ==> cols[i] == Trimmed(cells[i])
      invariant idx == HeaderIndex(cols)
    {
      var col := Trim(cells[k]);
      idx := MatchColumn(cols, idx, col);
      cols := cols + [col];
    }
  }

  /** One header cell at position `|cols|`: its lower-cased name picks the index it sets, if any. */
  method MatchColumn(cols: seq<string>, idx: Columns, col: string) returns (idx': Columns)
    requires idx == HeaderIndex(cols)
    ensures idx' == HeaderIndex(cols + [col])
  {
    var k := |cols|;
    var lower := Lower(col);
    ColumnOfSnoc(cols, col, {"store_id"});
    ColumnOfSnoc(cols, col, {"store_name"});
    ColumnOfSnoc(cols, col, {"branch"});
    ColumnOfSnoc(cols, col, {"average_bags_at_9am"});
    ColumnOfSnoc(cols, col, {"average_overall_rating"});
    ColumnOfSnoc(cols, col, {"price"});
    ColumnOfSnoc(cols, col, {"longitude"});
    ColumnOfSnoc(cols, col, {"latitude"});
    ColumnOfSnoc(cols, col, {"business_type", "type"});
    idx' := idx;
    if lower == "store_id" {
      idx' := idx.(storeId := k);
    } else if lower == "store_name" {
      idx' := idx.(storeName := k);
    } else if lower == "branch" {
      idx' := idx.(branch := k);
    } else if lower == "average_bags_at_9am" {
      idx' := idx.(bags := k);
    } else if lower == "average_overall_rating" {
      idx' := idx.(rating := k);
    } else if lower == "price" {
      idx' := idx.(price := k);
    } else if lower == "longitude" {
      idx' := idx.(longitude := k);
    } else if lower == "latitude" {
      idx' := idx.(latitude := k);
    } else if lower == "business_type" || lower == "type" {
      idx' := idx.(businessType := k);
    }
  }

  // ---------------------------------------------------------- business type

  /** Name fragments that mark a bakery. */
  const BakeryKeywords: set<string> := {"bakery", "bread", "donut", "krispy", "dunkin", "cinnabon", "greggs", "panera"}

  /** Name fragments that mark a cafe. */
  const CafeKeywords: set<string> := {"coffee", "starbucks", "cafe", "costa", "pret", "tim hortons", "caribou"}

  /** The three business types inference can produce. */
  const Kinds: set<string> := {"bakery", "cafe", "restaurant"}

  /**
   * The business type guessed from a store's name when the table gives none:
   * bakery keywords are looked for first, then cafe keywords, on the lower-cased
   * name; any other store is a restaurant.
   */
  function InferBusinessType(name: string): (t: string)
    ensures t in Kinds
  {
    var n := Lower(name);
    if Contains(n, "bakery") || Contains(n, "bread") || Contains(n, "donut") || Contains(n, "krispy") ||
       Contains(n, "dunkin") || Contains(n, "cinnabon") || Contains(n, "greggs") || Contains(n, "panera")
    then "bakery"
    else if Contains(n, "coffee") || Contains(n, "starbucks") || Contains(n, "cafe") || Contains(n, "costa") ||
            Contains(n, "pret") || Contains(n, "tim hortons") || Contains(n, "caribou")
    then "cafe"
    else "restaurant"
  }

  /**
   * Inference by keyword list: a store is a bakery exactly when its
   * lower-cased name contains a bakery keyword, whatever cafe keyword it
   * also contains, and a cafe exactly when it contains a cafe keyword and no
   * bakery keyword.
   */
  lemma InferByKeywords(name: string)
    ensures var t := InferBusinessType(name);
            (t == "bakery" <==> exists k :: k in BakeryKeywords && Contains(Lower(name), k)) &&
            (t == "cafe" <==> (forall k :: k in BakeryKeywords ==> !Contains(Lower(name), k)) &&
                              (exists k :: k in CafeKeywords && Contains(Lower(name), k)))
  {
    assert "bakery" in BakeryKeywords && "bread" in BakeryKeywords && "donut" in BakeryKeywords;
    assert "krispy" in BakeryKeywords && "dunkin" in BakeryKeywords && "cinnabon" in BakeryKeywords;
    assert "greggs" in BakeryKeywords && "panera" in BakeryKeywords;
    assert "coffee" in CafeKeywords && "starbucks" in CafeKeywords && "cafe" in CafeKeywords;
    assert "costa" in CafeKeywords && "pret" in CafeKeywords && "tim hortons" in CafeKeywords;
    assert "caribou" in CafeKeywords;
  }

  /** In particular a name and its lower-cased form get the same type. */
  lemma InferOfLower(name: string)
    ensures InferBusinessType(Lower(name)) == InferBusinessType(name)
  {
    LowerIdempotent(name);
  }

  // ------------------------------------------------------------------- rows

  /** A store as the loader builds it from one row. */
  datatype StoreRow = StoreRow(id: int, name: string, branch: string, bags: int, rating: real, price: real,
                               longitude: real, latitude: real, kind: string)

  /** The business type of a row: its own column when present and not empty, otherwise inferred from the name. */
  function BusinessType(values: seq<string>, typeIdx: int, name: string): (t: string)
    requires typeIdx >= -1
    ensures t != ""
    ensures t == InferBusinessType(name) || (0 <= typeIdx < |values| && t == values[typeIdx])
  {
    if typeIdx != -1 && typeIdx < |values| && values[typeIdx] != "" then values[typeIdx]
    else InferBusinessType(name)
  }

  /**
   * The numeric conversions of one row (`stoi` and `stof`, given here as
   * functions that may fail) and the store built from it; any failed
   * conversion drops the row.
   */
  function ParseRow(values: seq<string>, c: Columns, parseInt: string -> Maybe<int>, parseReal: string -> Maybe<real>)
    : (r: Maybe<StoreRow>)
    requires Within(c, |values|)
    ensures r.Just? ==> r.value.name == values[c.storeName] && r.value.branch == values[c.branch] &&
                        r.value.kind == BusinessType(values, c.businessType, values[c.storeName])
    ensures r.Just? <==> parseInt(values[c.storeId]).Just? && parseInt(values[c.bags]).Just? &&
                         parseReal(values[c.rating]).Just? && parseReal(values[c.price]).Just? &&
                         parseReal(values[c.longitude]).Just? && parseReal(values[c.latitude]).Just?
  {
    var id, bags := parseInt(values[c.storeId]), parseInt(values[c.bags]);
    var rating, price := parseReal(values[c.rating]), parseReal(values[c.price]);
    var lon, lat := parseReal(values[c.longitude]), parseReal(values[c.latitude]);
    if id.Nothing? || bags.Nothing? || rating.Nothing? || price.Nothing? || lon.Nothing? || lat.Nothing? then Nothing
    else
      var name := values[c.storeName];
      Just(StoreRow(id.value, name, values[c.branch], bags.value, rating.value, price.value, lon.value, lat.value,
                    BusinessType(values, c.businessType, name)))
  }

  /** What one data line yields, given `width` header columns: nothing for an empty or short line. */
  function RowOf(line: string, width: nat, c: Columns, parseInt: string -> Maybe<int>, parseReal: string -> Maybe<real>)
    : Maybe<StoreRow>
    requires Within(c, width)
  {
    if line == "" then Nothing
    else
      var values := TrimAll(Fields(line));
      if |values| < width then Nothing else ParseRow(values, c, parseInt, parseReal)
  }

  /** The stores the data lines yield, in file order. */
  function LoadedRows(lines: seq<string>, width: nat, c: Columns,
                      parseInt: string -> Maybe<int>, parseReal: string -> Maybe<real>): seq<StoreRow>
    requires Within(c, width)
  {
    if lines == [] then []
    else
      var r := RowOf(lines[|lines| - 1], width, c, parseInt, parseReal);
      LoadedRows(lines[..|lines| - 1], width, c, parseInt, parseReal) + (if r.Just? then [r.value] else [])
  }

  /** A line with fewer fields than the header (counting commas outside quotes) yields no store. */
  lemma ShortRowSkipped(line: string, width: nat, c: Columns,
                        parseInt: string -> Maybe<int>, parseReal: string -> Maybe<real>)
    requires Within(c, width) && Separators(line) + 1 < width
    ensures RowOf(line, width, c, parseInt, parseReal).Nothing?
  {
    FieldsCount(line);
  }

  /**
   * At most one store per line, and every store has a business type; when
   * the header has no type column every type is one of the three inferred
   * ones.
   */
  lemma {:induction false} LoadedRowsFacts(lines: seq<string>, width: nat, c: Columns,
                                           parseInt: string -> Maybe<int>, parseReal: string -> Maybe<real>)
    requires Within(c, width)
    ensures var rows := LoadedRows(lines, width, c, parseInt, parseReal);
            |rows| <= |lines| &&
            (forall i :: 0 <= i < |rows| ==> rows[i].kind != "") &&
            (c.businessType == -1 ==> forall i :: 0 <= i < |rows| ==> rows[i].kind in Kinds)
  {
    if lines != [] {
      LoadedRowsFacts(lines[..|lines| - 1], width, c, parseInt, parseReal);
    }
  }

  // ----------------------------------------------------------------- loader

  /** The trimmed header cells of a file, none when the file is empty. */
  function HeaderCols(lines: seq<string>): seq<string> {
    if lines == [] then [] else TrimAll(HeaderCells(lines[0]))
  }

  /**
   * `load_restaurants_from_csv`: a file that cannot be opened (`Nothing`) or
   * whose header lacks one of the eight required columns fails and adds
   * nothing; otherwise every data line that yields a store appends it, in
   * file order, and the load succeeds.
   */
  method LoadRestaurantsFromCsv(file: Maybe<seq<string>>, parseInt: string -> Maybe<int>, parseReal: string -> Maybe<real>,
                                restaurants: seq<StoreRow>)
    returns (ok: bool, loaded: seq<StoreRow>)
    ensures ok <==> file.Just? && HasRequired(HeaderIndex(HeaderCols(file.value)))
    ensures !ok ==> loaded == restaurants
    ensures ok ==> Within(HeaderIndex(HeaderCols(file.value)), |HeaderCols(file.value)|) &&
                   loaded == restaurants + LoadedRows(file.value[1..], |HeaderCols(file.value)|,
                                                      HeaderIndex(HeaderCols(file.value)), parseInt, parseReal)
  {
    loaded := restaurants;
    if file.Nothing? {
      return false, loaded;
    }
    var lines := file.value;
    var cols, c := [], NoColumns;
    if |lines| > 0 {
      cols, c := MapHeader(HeaderCells(lines[0]));
    }
    if c.storeId == -1 || c.storeName == -1 || c.branch == -1 || c.bags == -1 || c.rating == -1 ||
       c.price == -1 || c.longitude == -1 || c.latitude == -1 {
      return false, loaded;
    }
    loaded := LoadRows(lines[1..], |cols|, c, parseInt, parseReal, restaurants);
    ok := true;
  }

  /** One more line appends what it yields. */
  lemma LoadedRowsSnoc(lines: seq<string>, line: string, width: nat, c: Columns,
                       parseInt: string -> Maybe<int>, parseReal: string -> Maybe<real>)
    requires Within(c, width)
    ensures var r := RowOf(line, width, c, parseInt, parseReal);
            LoadedRows(lines + [line], width, c, parseInt, parseReal) ==
            LoadedRows(lines, width, c, parseInt, parseReal) + (if r.Just? then [r.value] else [])
  {
    assert (lines + [line])[..|lines|] == lines;
  }

  /** The row loop: each data line in turn appends the store it yields, if any. */
  method LoadRows(data: seq<string>, width: nat, c: Columns, parseInt: string -> Maybe<int>, parseReal: string -> Maybe<real>,
                  restaurants: seq<StoreRow>)
    returns (loaded: seq<StoreRow>)
    requires Within(c, width)
    ensures loaded == restaurants + LoadedRows(data, width, c, parseInt, parseReal)
  {
    loaded := restaurants;
    for n := 0 to |data|
      invariant loaded == restaurants + LoadedRows(data[..n], width, c, parseInt, parseReal)
    {
      assert data[..n + 1] == data[..n] + [data[n]];
      LoadedRowsSnoc(data[..n], data[n], width, c, parseInt, parseReal);
      var row := LoadLine(data[n], width, c, parseInt, parseReal);
      if row.Just? {
        loaded := loaded + [row.value];
      }
    }
    assert data[..|data|] == data;
  }

  /** The body of the row loop: an empty line is passed over, a short one skipped, any other converted. */
  method LoadLine(line: string, width: nat, c: Columns, parseInt: string -> Maybe<int>, parseReal: string -> Maybe<real>)
    returns (row: Maybe<StoreRow>)
    requires Within(c, width)
    ensures row == RowOf(line, width, c, parseInt, parseReal)
  {
    if line == "" {
      return Nothing;
    }
    var values := SplitLine(line);
    values := TrimFields(values);
    if |values| < width {
      return Nothing;
    }
    row := ParseRow(values, c, parseInt, parseReal);
  }

  // ------------------------------------------------------------ default table

  /** The built-in table of fifteen stores. */
  function DefaultStores(): (d: seq<StoreRow>)
    ensures |d| == 15
    ensures forall i :: 0 <= i < 15 ==>
      d[i].id == i + 1 && d[i].kind in Kinds && d[i].bags > 0 && 1.0 <= d[i].rating <= 5.0 && d[i].price > 0.0
  {
    [StoreRow(1, "Krispy Kreme", "Zamalek", 10, 4.8, 80.0, 31.22, 30.05, "bakery"),
     StoreRow(2, "TBS Pizza", "New Cairo", 10, 4.2, 150.0, 31.25, 30.08, "restaurant"),
     StoreRow(3, "Starbucks", "Zamalek", 15, 4.5, 100.0, 31.23, 30.06, "cafe"),
     StoreRow(4, "Paul Bakery", "New Cairo", 12, 4.6, 90.0, 31.26, 30.09, "bakery"),
     StoreRow(5, "Costa Coffee", "Zamalek", 8, 4.3, 85.0, 31.24, 30.07, "cafe"),
     StoreRow(6, "Greggs", "New Cairo", 20, 4.0, 70.0, 31.27, 30.10, "bakery"),
     StoreRow(7, "Pizza Hut", "Zamalek", 14, 4.1, 140.0, 31.21, 30.04, "restaurant"),
     StoreRow(8, "Pret A Manger", "New Cairo", 18, 4.4, 95.0, 31.28, 30.11, "cafe"),
     StoreRow(9, "Subway", "Zamalek", 16, 3.9, 110.0, 31.20, 30.03, "restaurant"),
     StoreRow(10, "Tim Hortons", "New Cairo", 10, 4.2, 80.0, 31.29, 30.12, "cafe"),
     StoreRow(11, "Dunkin Donuts", "Zamalek", 12, 4.3, 75.0, 31.19, 30.02, "bakery"),
     StoreRow(12, "Domino's Pizza", "New Cairo", 15, 4.0, 130.0, 31.30, 30.13, "restaurant"),
     StoreRow(13, "Cinnabon", "Zamalek", 9, 4.4, 85.0, 31.18, 30.01, "bakery"),
     StoreRow(14, "Caribou Coffee", "New Cairo", 11, 4.1, 90.0, 31.31, 30.14, "cafe"),
     StoreRow(15, "Panera Bread", "Zamalek", 13, 4.2, 95.0, 31.17, 30.00, "restaurant")]
  }

  /** `generate_default_restaurants`: the fifteen built-in stores appended after whatever the list holds. */
  method GenerateDefaultRestaurants(restaurants: seq<StoreRow>) returns (rs: seq<StoreRow>)
    ensures |rs| == |restaurants| + 15 && rs[..|restaurants|] == restaurants
    ensures forall i :: 0 <= i < 15 ==> rs[|restaurants| + i] == DefaultStores()[i]
  {
    rs := restaurants + DefaultStores();
  }
}
