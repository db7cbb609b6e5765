/** The row grouper of `ExcelSKULoader.parse_sku_groups` (nodes.py:425-507):
    scans the sheet from the start row, resolves every row's combined SKU
    (a blank cell inherits the most recent non-blank one), applies the optional
    filter, gates the row on its sku and url cells and groups the accepted
    items by combined SKU in first-seen order.

    The scan is modelled twice: `ParseAll` is the stateful left-to-right loop
    of the source, and `Outcomes`/`GroupKeys`/`GroupItems` say declaratively
    what each row contributes; `ParseAllMatchesOutcomes` proves they agree. */
module SkuParser {
  import opened Wrappers
  import opened Text
  import opened Cells
  import opened OrderedMaps

  /* ----- Column letters ----- */

  /** The letters of `col_map`, in index order. */
  const ColumnLetters: string := "ABCDEFGHIJKLMNOPQR"

  /** The table is the run of consecutive letters from A. */
  lemma LetterAt(i: nat)
    requires i < |ColumnLetters|
    ensures ColumnLetters[i] as int == 'A' as int + i
  {
    if i < 9 {
      assert ColumnLetters[..9] == "ABCDEFGHI";
      assert ColumnLetters[i] == ColumnLetters[..9][i];
    } else {
      assert ColumnLetters[9..] == "JKLMNOPQR";
      assert ColumnLetters[i] == ColumnLetters[9..][i - 9];
    }
  }

  /** `c.upper()` for the characters whose upper-case form is one of the
      letters A..R: the ASCII lower-case letters and the dotless i, which
      Python upper-cases to `I`. Other characters are returned unchanged;
      none of them upper-cases to a letter of the table. */
  function UpperLetter(c: char): char {
    if 'a' <= c <= 'z' then (c as int - 32) as char
    else if c == '\U{131}' then 'I'
    else c
  }

  /** The column a role's letter selects: a one-character name that
      upper-cases to one of A..R selects that column (0..17); every other
      name, including a longer one, selects the role's default column. */
  function ColumnIndex(letter: string, default: nat): (i: nat)
    ensures i == default || (|letter| == 1 && i < |ColumnLetters| && ColumnLetters[i] == UpperLetter(letter[0]))
    ensures |letter| == 1 && UpperLetter(letter[0]) in ColumnLetters ==>
      i < |ColumnLetters| && ColumnLetters[i] == UpperLetter(letter[0])
    ensures !(|letter| == 1 && UpperLetter(letter[0]) in ColumnLetters) ==> i == default
  {
    if |letter| == 1 && 'A' <= UpperLetter(letter[0]) <= 'R' then
      UpperLetter(letter[0]) as int - 'A' as int
    else default
  }

  /** Every letter of the table, in either case, names its own position. */
  lemma ColumnIndexOfLetter(i: nat, default: nat)
    requires i < |ColumnLetters|
    ensures ColumnIndex([ColumnLetters[i]], default) == i
    ensures ColumnIndex([(ColumnLetters[i] as int + 32) as char], default) == i
  {
    LetterAt(i);
  }

  /** The four column roles, as zero-based positions in a row. */
  datatype Columns = Columns(combined: nat, sku: nat, pcs: nat, url: nat)

  /** The default letters A, B, C, D select columns 0, 1, 2 and 3, and so does
      any unrecognised letter. */
  function ResolveColumns(combined: string, sku: string, pcs: string, url: string): (c: Columns)
    ensures c.combined < 18 && c.sku < 18 && c.pcs < 18 && c.url < 18
    ensures !(|combined| == 1 && UpperLetter(combined[0]) in ColumnLetters) ==> c.combined == 0
    ensures !(|sku| == 1 && UpperLetter(sku[0]) in ColumnLetters) ==> c.sku == 1
    ensures !(|pcs| == 1 && UpperLetter(pcs[0]) in ColumnLetters) ==> c.pcs == 2
    ensures !(|url| == 1 && UpperLetter(url[0]) in ColumnLetters) ==> c.url == 3
    ensures |combined| == 1 && UpperLetter(combined[0]) in ColumnLetters ==>
      ColumnLetters[c.combined] == UpperLetter(combined[0])
    ensures |sku| == 1 && UpperLetter(sku[0]) in ColumnLetters ==> ColumnLetters[c.sku] == UpperLetter(sku[0])
    ensures |pcs| == 1 && UpperLetter(pcs[0]) in ColumnLetters ==> ColumnLetters[c.pcs] == UpperLetter(pcs[0])
    ensures |url| == 1 && UpperLetter(url[0]) in ColumnLetters ==> ColumnLetters[c.url] == UpperLetter(url[0])
  {
    Columns(ColumnIndex(combined, 0), ColumnIndex(sku, 1), ColumnIndex(pcs, 2), ColumnIndex(url, 3))
  }

  /* ----- Reading one row ----- */

  datatype Item = Item(sku: string, pcs: int, url: string)

  datatype Config = Config(cols: Columns, filter: string)

  /** What the combined-SKU cell of a row says. */
  datatype KeyCell = OutOfRow | BlankKey | Key(key: string)

  /** A cell that is NaN, or whose text strips to "" or "nan", is blank;
      otherwise its stripped text is a key. */
  function ReadKey(row: Row, col: nat): (kc: KeyCell)
    ensures kc.OutOfRow? <==> col >= |row|
    ensures kc.Key? ==> col < |row| && !IsNa(row[col]) && kc.key == Strip(Render(row[col]))
    ensures kc.Key? ==> kc.key != "" && kc.key != "nan"
    ensures kc.BlankKey? <==> col < |row| && (IsNa(row[col]) || Strip(Render(row[col])) in {"", "nan"})
  {
    if col < |row| then
      var v := row[col];
      if IsNa(v) || Strip(Render(v)) == "" || Strip(Render(v)) == "nan" then BlankKey
      else Key(Strip(Render(v)))
    else OutOfRow
  }

  /** The text of a sku or url cell: the cell's rendering without
      surrounding whitespace, empty for a cell past the end of the row, and
      "nan" for a missing value. */
  function ReadText(row: Row, col: nat): (t: string)
    ensures col >= |row| ==> t == ""
    ensures col < |row| ==> t == Strip(Render(row[col]))
    ensures col < |row| && IsNa(row[col]) ==> t == "nan"
    ensures Strip(t) == t
  {
    if col < |row| then
      var t := Strip(Render(row[col]));
      StripIdempotent(Render(row[col]));
      NoEdgeSpaceStripsToItself("nan");
      t
    else ""
  }

  /** The row-level sku gate: non-empty and not "nan". */
  predicate SkuAccepted(sku: string) {
    sku != "" && sku != "nan"
  }

  /** The row-level url gate: non-empty, not "nan", and starting with the
      lower-case letters "http". */
  predicate UrlAccepted(url: string) {
    url != "" && url != "nan" && StartsWith(url, "http")
  }

  /** The emptiness and "nan" tests of the gate are subsumed by the prefix
      test: only the case-sensitive "http" prefix decides. */
  lemma UrlGateIsHttpPrefix(url: string)
    ensures UrlAccepted(url) <==> StartsWith(url, "http")
  {
  }

  /** A sku or url cell that is missing from the row or holds a missing
      value fails its gate. */
  lemma MissingCellRejected(row: Row, col: nat)
    requires col >= |row| || IsNa(row[col])
    ensures !SkuAccepted(ReadText(row, col)) && !UrlAccepted(ReadText(row, col))
  {
  }

  /** The piece count of a row: the integer value of the pcs cell, or 1 when
      the cell is missing, NaN, does not convert, or is not positive. */
  function PcsOf(row: Row, col: nat): (p: int)
    ensures p >= 1
    ensures col < |row| && ToInt(row[col]).Some? && ToInt(row[col]).value >= 1 ==>
      p == ToInt(row[col]).value
    ensures !(col < |row| && ToInt(row[col]).Some? && ToInt(row[col]).value >= 1) ==> p == 1
  {
    if col < |row| then
      var v := row[col];
      if IsNa(v) then 1
      else match ToInt(v)
        case None => 1
        case Some(n) => if n <= 0 then 1 else n
    else 1
  }

  /** A filter that strips to "" is off; otherwise only its stripped text
      passes. */
  predicate Filtered(filter: string, key: string) {
    Strip(filter) != "" && key != Strip(filter)
  }

  /** A blank filter lets every key through; any other filter lets exactly
      one key through, its own stripped text. */
  lemma FilterPassesOneKey(filter: string, key: string)
    ensures Strip(filter) == "" ==> !Filtered(filter, key)
    ensures Strip(filter) != "" ==> (!Filtered(filter, key) <==> key == Strip(filter))
  {
  }

  /* ----- The scan as the source runs it ----- */

  datatype ParseState = ParseState(
    groups: OrderedMap<string, seq<Item>>,
    current: Option<string>,
    parsed: nat,
    skipped: nat)

  function Init(): (st: ParseState)
    ensures st.groups.Valid()
  {
    ParseState(Empty(), None, 0, 0)
  }

  /** Creating a key's group when it is not there yet: a new key gets an
      empty item list at the end of the order; an existing group is left as
      it is. */
  function EnsureGroup(groups: OrderedMap<string, seq<Item>>, key: string): (r: OrderedMap<string, seq<Item>>)
    requires groups.Valid()
    ensures r.Valid() && key in r.values
    ensures key in groups.values ==> r == groups
    ensures key !in groups.values ==> r.keys == groups.keys + [key] && r.values == groups.values[key := []]
  {
    if key in groups.values then groups else Put(groups, key, [])
  }

  /** The body of the row loop once the row's key is known (and the current
      key already updated): filter, create the group, then gate on sku and
      url. */
  function Admit(cfg: Config, st: ParseState, row: Row, key: string): (r: ParseState)
    requires st.groups.Valid()
    ensures r.groups.Valid() && r.current == st.current
    ensures r.parsed + r.skipped == st.parsed + st.skipped + 1
  {
    if Filtered(cfg.filter, key) then st.(skipped := st.skipped + 1)
    else
      var groups := EnsureGroup(st.groups, key);
      var sku := ReadText(row, cfg.cols.sku);
      var url := ReadText(row, cfg.cols.url);
      if !SkuAccepted(sku) || !UrlAccepted(url) then
        st.(groups := groups, skipped := st.skipped + 1)
      else
        var item := Item(sku, PcsOf(row, cfg.cols.pcs), url);
        st.(groups := Put(groups, key, groups.values[key] + [item]), parsed := st.parsed + 1)
  }

  /** One iteration of the row loop. */
  function Step(cfg: Config, st: ParseState, row: Row): (r: ParseState)
    requires st.groups.Valid()
    ensures r.groups.Valid()
    ensures r.parsed + r.skipped == st.parsed + st.skipped + 1
  {
    match ReadKey(row, cfg.cols.combined)
    case OutOfRow => st.(skipped := st.skipped + 1)
    case BlankKey =>
      if st.current.None? then st.(skipped := st.skipped + 1)
      else Admit(cfg, st, row, st.current.value)
    case Key(k) => Admit(cfg, st.(current := Some(k)), row, k)
  }

  /** The loop over the scanned rows: every row is either parsed or skipped. */
  function ParseAll(cfg: Config, rows: seq<Row>): (st: ParseState)
    ensures st.groups.Valid()
    ensures st.parsed + st.skipped == |rows|
  {
    if |rows| == 0 then Init()
    else Step(cfg, ParseAll(cfg, rows[..|rows| - 1]), rows[|rows| - 1])
  }

  /** The sheet row read on the loop's `j`-th iteration, which starts one
      before the start row, after Python's negative indexing. */
  function IlocIndex(n: nat, startRow: int, j: nat): int {
    var i := startRow - 1 + j;
    if i < 0 then n + i else i
  }

  /** The rows the loop visits: every position from the start row (counted
      from 1) to the end of the sheet. A negative position counts from the
      end; one before the first row raises `IndexError` (`None`). */
  function Scan(rows: seq<Row>, startRow: int): (r: Option<seq<Row>>)
    ensures r.None? <==> startRow - 1 < -|rows|
    ensures r.Some? ==> |r.value| == if startRow - 1 < |rows| then |rows| - (startRow - 1) else 0
    ensures r.Some? ==> forall j :: 0 <= j < |r.value| ==>
      0 <= IlocIndex(|rows|, startRow, j) < |rows| && r.value[j] == rows[IlocIndex(|rows|, startRow, j)]
  {
    if startRow >= 1 then
      if startRow - 1 <= |rows| then
        var s := rows[startRow - 1..];
        Some(s)
      else Some([])
    else if |rows| + startRow - 1 >= 0 then
      Some(rows[|rows| + startRow - 1..] + rows)
    else None
  }

  /** The whole of `parse_sku_groups`: resolve the four column letters, scan
      the rows from the start row and fold them into groups. `None` is the
      `IndexError` of a start row before the first sheet row. */
  function ParseSkuGroups(rows: seq<Row>, combined: string, sku: string, pcs: string, url: string,
                          startRow: int, filter: string): (r: Option<ParseState>)
    ensures r.None? <==> startRow - 1 < -|rows|
    ensures r.Some? ==> r.value.groups.Valid()
    ensures r.Some? ==>
      r.value.parsed + r.value.skipped == if startRow - 1 < |rows| then |rows| - (startRow - 1) else 0
  {
    match Scan(rows, startRow)
    case None => None
    case Some(scanned) =>
      Some(ParseAll(Config(ResolveColumns(combined, sku, pcs, url), filter), scanned))
  }

  /* ----- What each row contributes, stated row by row ----- */

  /** What a row does to the result: nothing, create its group only (the row
      is then dropped by the sku or url gate), or add an item to its group. */
  datatype Outcome = Skip | Touch(key: string) | Accept(key: string, item: Item)

  /** The most recent non-blank combined SKU among `rows`. */
  function LastKey(col: nat, rows: seq<Row>): Option<string> {
    if |rows| == 0 then None
    else match ReadKey(rows[|rows| - 1], col)
      case Key(k) => Some(k)
      case _ => LastKey(col, rows[..|rows| - 1])
  }

  /** The combined SKU a row resolves to, given the rows before it. */
  function ResolvedKey(col: nat, before: seq<Row>, row: Row): Option<string> {
    match ReadKey(row, col)
    case OutOfRow => None
    case BlankKey => LastKey(col, before)
    case Key(k) => Some(k)
  }

  /** What a row with a resolved key contributes. */
  function KeyedOutcome(cfg: Config, row: Row, key: string): Outcome {
    if Filtered(cfg.filter, key) then Skip
    else if SkuAccepted(ReadText(row, cfg.cols.sku)) && UrlAccepted(ReadText(row, cfg.cols.url)) then
      Accept(key, Item(ReadText(row, cfg.cols.sku), PcsOf(row, cfg.cols.pcs), ReadText(row, cfg.cols.url)))
    else Touch(key)
  }

  function RowOutcome(cfg: Config, before: seq<Row>, row: Row): Outcome {
    match ResolvedKey(cfg.cols.combined, before, row)
    case None => Skip
    case Some(key) => KeyedOutcome(cfg, row, key)
  }

  function Outcomes(cfg: Config, rows: seq<Row>): seq<Outcome> {
    seq(|rows|, i requires 0 <= i < |rows| => RowOutcome(cfg, rows[..i], rows[i]))
  }

  /** The keys of the non-skipped outcomes, in order of first occurrence. */
  function GroupKeys(outs: seq<Outcome>): seq<string> {
    if |outs| == 0 then []
    else
      var ks := GroupKeys(outs[..|outs| - 1]);
      var o := outs[|outs| - 1];
      if o.Skip? || o.key in ks then ks else ks + [o.key]
  }

  /** The items accepted for key `k`, in row order. */
  function GroupItems(outs: seq<Outcome>, k: string): seq<Item> {
    if |outs| == 0 then []
    else
      var o := outs[|outs| - 1];
      GroupItems(outs[..|outs| - 1], k) + if o.Accept? && o.key == k then [o.item] else []
  }

  function AcceptedCount(outs: seq<Outcome>): nat {
    if |outs| == 0 then 0
    else AcceptedCount(outs[..|outs| - 1]) + if outs[|outs| - 1].Accept? then 1 else 0
  }

  /* ----- The two descriptions agree ----- */

  ghost predicate Agrees(cfg: Config, rows: seq<Row>, st: ParseState) {
    var outs := Outcomes(cfg, rows);
    && st.current == LastKey(cfg.cols.combined, rows)
    && st.groups.keys == GroupKeys(outs)
    && (forall k :: k in st.groups.values ==> st.groups.values[k] == GroupItems(outs, k))
    && st.parsed == AcceptedCount(outs)
  }

  lemma OutcomesSnoc(cfg: Config, rows: seq<Row>)
    requires |rows| > 0
    ensures Outcomes(cfg, rows)
         == Outcomes(cfg, rows[..|rows| - 1]) + [RowOutcome(cfg, rows[..|rows| - 1], rows[|rows| - 1])]
  {
    var n := |rows| - 1;
    var front := rows[..n];
    forall i | 0 <= i < n
      ensures rows[..i] == front[..i]
    {
    }
  }

  /** A loop iteration resolves the row's key, records it as the current one
      and, when there is a key, runs the rest of the body. */
  lemma StepResolves(cfg: Config, front: seq<Row>, row: Row, st: ParseState)
    requires st.groups.Valid() && st.current == LastKey(cfg.cols.combined, front)
    ensures Step(cfg, st, row).current == LastKey(cfg.cols.combined, front + [row])
    ensures ResolvedKey(cfg.cols.combined, front, row).None? ==>
      Step(cfg, st, row) == st.(skipped := st.skipped + 1)
    ensures ResolvedKey(cfg.cols.combined, front, row).Some? ==>
      Step(cfg, st, row)
        == Admit(cfg, st.(current := LastKey(cfg.cols.combined, front + [row])), row,
                 ResolvedKey(cfg.cols.combined, front, row).value)
  {
    var rows := front + [row];
    assert rows[..|rows| - 1] == front;
  }

  /** The rest of the body does what the keyed outcome says. */
  lemma AdmitEffect(cfg: Config, st: ParseState, row: Row, key: string)
    requires st.groups.Valid()
    ensures var r := Admit(cfg, st, row, key);
      var o := KeyedOutcome(cfg, row, key);
      var g := EnsureGroup(st.groups, key);
      && (o.Skip? ==> r.groups == st.groups && r.parsed == st.parsed)
      && (o.Touch? ==> o.key == key && r.groups == g && r.parsed == st.parsed)
      && (o.Accept? ==> o.key == key && r.groups == Put(g, key, g.values[key] + [o.item]) && r.parsed == st.parsed + 1)
  {
  }

  /** Appending one outcome to the row-by-row description. */
  lemma OutcomeEffect(outs: seq<Outcome>, o: Outcome)
    ensures var outs' := outs + [o];
      && GroupKeys(outs') == (if o.Skip? || o.key in GroupKeys(outs) then GroupKeys(outs) else GroupKeys(outs) + [o.key])
      && (forall k :: GroupItems(outs', k) == GroupItems(outs, k) + if o.Accept? && o.key == k then [o.item] else [])
      && AcceptedCount(outs') == AcceptedCount(outs) + if o.Accept? then 1 else 0
  {
    assert (outs + [o])[..|outs|] == outs;
  }

  /** The group table follows the row-by-row description across one more
      outcome. */
  lemma GroupsAgreeStep(g: OrderedMap<string, seq<Item>>, outs: seq<Outcome>, o: Outcome,
                        g': OrderedMap<string, seq<Item>>)
    requires g.Valid() && g.keys == GroupKeys(outs)
    requires forall k :: k in g.values ==> g.values[k] == GroupItems(outs, k)
    requires o.Skip? ==> g' == g
    requires o.Touch? ==> g' == EnsureGroup(g, o.key)
    requires o.Accept? ==>
      g' == Put(EnsureGroup(g, o.key), o.key, EnsureGroup(g, o.key).values[o.key] + [o.item])
    ensures g'.keys == GroupKeys(outs + [o])
    ensures forall k :: k in g'.values ==> g'.values[k] == GroupItems(outs + [o], k)
  {
    OutcomeEffect(outs, o);
    if o.Touch? {
      EnsuredGroupAgrees(g, outs, o.key);
      TouchAgrees(EnsureGroup(g, o.key), outs, o);
    } else if o.Accept? {
      EnsuredGroupAgrees(g, outs, o.key);
      AcceptAgrees(EnsureGroup(g, o.key), outs, o);
    }
  }

  /** Creating the group of a keyed row keeps the table in step with the
      description so far. */
  lemma EnsuredGroupAgrees(g: OrderedMap<string, seq<Item>>, outs: seq<Outcome>, key: string)
    requires g.Valid() && g.keys == GroupKeys(outs)
    requires forall k :: k in g.values ==> g.values[k] == GroupItems(outs, k)
    ensures var g1 := EnsureGroup(g, key);
      && g1.keys == (if key in GroupKeys(outs) then GroupKeys(outs) else GroupKeys(outs) + [key])
      && forall k :: k in g1.values ==> g1.values[k] == GroupItems(outs, k)
  {
    if key !in g.values {
      GroupItemsOfAbsentKey(outs, key);
    }
  }

  /** A touched group gains no item. */
  lemma TouchAgrees(g1: OrderedMap<string, seq<Item>>, outs: seq<Outcome>, o: Outcome)
    requires o.Touch?
    requires forall k :: k in g1.values ==> g1.values[k] == GroupItems(outs, k)
    ensures forall k :: k in g1.values ==> g1.values[k] == GroupItems(outs + [o], k)
  {
    OutcomeEffect(outs, o);
  }

  /** An accepted row's item goes to the end of its own group only. */
  lemma AcceptAgrees(g1: OrderedMap<string, seq<Item>>, outs: seq<Outcome>, o: Outcome)
    requires o.Accept? && g1.Valid() && o.key in g1.values
    requires forall k :: k in g1.values ==> g1.values[k] == GroupItems(outs, k)
    ensures var g' := Put(g1, o.key, g1.values[o.key] + [o.item]);
      && g'.keys == g1.keys
      && forall k :: k in g'.values ==> g'.values[k] == GroupItems(outs + [o], k)
  {
    OutcomeEffect(outs, o);
  }

  /** One loop iteration does exactly what the row's outcome says. */
  lemma StepAgrees(cfg: Config, front: seq<Row>, row: Row, st: ParseState)
    requires st.groups.Valid() && Agrees(cfg, front, st)
    ensures Agrees(cfg, front + [row], Step(cfg, st, row))
  {
    var rows := front + [row];
    assert rows[..|rows| - 1] == front;
    OutcomesSnoc(cfg, rows);
    var outs := Outcomes(cfg, front);
    var o := RowOutcome(cfg, front, row);
    assert Outcomes(cfg, rows) == outs + [o];
    StepResolves(cfg, front, row, st);
    OutcomeEffect(outs, o);
    var r := Step(cfg, st, row);
    var key := ResolvedKey(cfg.cols.combined, front, row);
    if key.None? {
      assert o == Skip;
      assert r == st.(skipped := st.skipped + 1);
      GroupsAgreeStep(st.groups, outs, o, r.groups);
    } else {
      var st' := st.(current := LastKey(cfg.cols.combined, rows));
      assert o == KeyedOutcome(cfg, row, key.value);
      assert r == Admit(cfg, st', row, key.value);
      AdmitEffect(cfg, st', row, key.value);
      GroupsAgreeStep(st.groups, outs, o, r.groups);
    }
  }

  /** A key that never appears in the group order has no items. */
  lemma {:induction false} GroupItemsOfAbsentKey(outs: seq<Outcome>, k: string)
    requires k !in GroupKeys(outs)
    ensures GroupItems(outs, k) == []
  {
    if |outs| > 0 {
      GroupItemsOfAbsentKey(outs[..|outs| - 1], k);
    }
  }

  /** The stateful scan computes exactly the row-by-row description: the
      current key is the last non-blank key, groups appear in the order their
      key first reached the group-creation step, each group holds its accepted
      items in row order, and the parsed counter counts accepted rows. */
  lemma {:induction false} ParseAllMatchesOutcomes(cfg: Config, rows: seq<Row>)
    ensures Agrees(cfg, rows, ParseAll(cfg, rows))
  {
    if |rows| > 0 {
      var front := rows[..|rows| - 1];
      ParseAllMatchesOutcomes(cfg, front);
      StepAgrees(cfg, front, rows[|rows| - 1], ParseAll(cfg, front));
      assert front + [rows[|rows| - 1]] == rows;
    }
  }
  /* ----- Worked examples ----- */

  /** A row of the four default columns A..D. */
  function SheetRow(combined: Cell, sku: string, pcs: Cell, url: string): (r: Row)
    ensures |r| == 4
  {
    [combined, Str(sku), pcs, Str(url)]
  }

  /** Text that reads back unchanged and is neither empty nor "nan". */
  predicate Plain(s: string) {
    s != "" && s != "nan" && !IsSpace(s[0]) && !IsSpace(s[|s| - 1])
  }

  /** How a well-formed row of the default columns reads. */
  lemma ReadSheetRow(combined: Cell, sku: string, pcs: nat, url: string)
    requires Plain(sku) && Plain(url) && StartsWith(url, "http") && pcs >= 1
    ensures var row := SheetRow(combined, sku, Int(pcs), url);
      && ReadText(row, 1) == sku && ReadText(row, 3) == url && PcsOf(row, 2) == pcs
      && SkuAccepted(sku) && UrlAccepted(url)
      && (combined.Blank? ==> ReadKey(row, 0) == BlankKey)
      && (combined.Str? && Plain(combined.text) ==> ReadKey(row, 0) == Key(combined.text))
  {
    var row := SheetRow(combined, sku, Int(pcs), url);
    ReadPlainText(row, 1, sku);
    ReadPlainText(row, 3, url);
    assert PcsOf(row, 2) == pcs;
    if combined.Str? && Plain(combined.text) {
      ReadPlainKey(row, 0, combined.text);
    }
  }

  /** A cell holding plain text reads back as that text. */
  lemma ReadPlainText(row: Row, col: nat, s: string)
    requires col < |row| && row[col] == Str(s) && Plain(s)
    ensures ReadText(row, col) == s
  {
    NoEdgeSpaceStripsToItself(s);
  }

  /** A combined-SKU cell holding plain text is that key. */
  lemma ReadPlainKey(row: Row, col: nat, s: string)
    requires col < |row| && row[col] == Str(s) && Plain(s)
    ensures ReadKey(row, col) == Key(s)
  {
    NoEdgeSpaceStripsToItself(s);
  }

  /** For any column letters and start row, the parser's result is the fold
      over the scanned rows, and that fold is the row-by-row description. */
  lemma ParseSkuGroupsMatchesOutcomes(rows: seq<Row>, combined: string, sku: string, pcs: string, url: string,
                                      startRow: int, filter: string)
    ensures Scan(rows, startRow).None? ==> ParseSkuGroups(rows, combined, sku, pcs, url, startRow, filter).None?
    ensures Scan(rows, startRow).Some? ==>
      var cfg := Config(ResolveColumns(combined, sku, pcs, url), filter);
      var scanned := Scan(rows, startRow).value;
      && ParseSkuGroups(rows, combined, sku, pcs, url, startRow, filter) == Some(ParseAll(cfg, scanned))
      && Agrees(cfg, scanned, ParseAll(cfg, scanned))
  {
    if Scan(rows, startRow).Some? {
      var cfg := Config(ResolveColumns(combined, sku, pcs, url), filter);
      ParseAllMatchesOutcomes(cfg, Scan(rows, startRow).value);
    }
  }

  /** Scanning from the first row with the default column letters folds
      every row of the sheet. */
  lemma DefaultSheet(rows: seq<Row>, filter: string)
    ensures ParseSkuGroups(rows, "A", "B", "C", "D", 1, filter)
      == Some(ParseAll(Config(Columns(0, 1, 2, 3), filter), rows))
  {
    DefaultColumns();
    assert Scan(rows, 1) == Some(rows) by {
      assert rows[0..] == rows;
    }
  }

  /** The letters A to D name the first four columns. */
  lemma DefaultColumns()
    ensures ResolveColumns("A", "B", "C", "D") == Columns(0, 1, 2, 3)
  {
  }

  /** A well-formed row of the default columns reads as its item. */
  lemma SheetRowReads(filter: string, combined: Cell, it: Item)
    requires Plain(it.sku) && Plain(it.url) && StartsWith(it.url, "http") && it.pcs >= 1
    ensures RowReads(Config(Columns(0, 1, 2, 3), filter), SheetRow(combined, it.sku, Int(it.pcs), it.url), it)
  {
    ReadSheetRow(combined, it.sku, it.pcs, it.url);
  }

  /** The cells a row contributes to its item, when it passes both gates. */
  predicate RowReads(cfg: Config, row: Row, it: Item) {
    && ReadText(row, cfg.cols.sku) == it.sku && ReadText(row, cfg.cols.url) == it.url
    && PcsOf(row, cfg.cols.pcs) == it.pcs && SkuAccepted(it.sku) && UrlAccepted(it.url)
  }

  /** A row that resolves to `key` (its own or the current one), passes the
      filter and both gates adds its item at the end of that group, creating
      the group at the end of the order when it is new. */
  lemma AcceptStep(cfg: Config, st: ParseState, row: Row, key: string, it: Item)
    requires st.groups.Valid() && !Filtered(cfg.filter, key) && RowReads(cfg, row, it)
    requires ReadKey(row, cfg.cols.combined) == Key(key)
          || (ReadKey(row, cfg.cols.combined) == BlankKey && st.current == Some(key))
    ensures var r := Step(cfg, st, row);
      && r.current == Some(key) && r.parsed == st.parsed + 1 && r.skipped == st.skipped
      && r.groups.values
         == st.groups.values[key := (if key in st.groups.values then st.groups.values[key] else []) + [it]]
      && r.groups.keys == if key in st.groups.values then st.groups.keys else st.groups.keys + [key]
  {
    var st' := st.(current := Some(key));
    assert Step(cfg, st, row) == Admit(cfg, st', row, key) by {
      if ReadKey(row, cfg.cols.combined).BlankKey? {
        assert st' == st;
      }
    }
    assert KeyedOutcome(cfg, row, key) == Accept(key, it);
    AdmitEffect(cfg, st', row, key);
    var g := EnsureGroup(st.groups, key);
    assert Step(cfg, st, row).groups == Put(g, key, g.values[key] + [it]);
    AppendToGroup(st.groups, key, it);
  }

  /** Creating a group if needed and appending an item to it. */
  lemma AppendToGroup(m: OrderedMap<string, seq<Item>>, key: string, it: Item)
    requires m.Valid()
    ensures var g := EnsureGroup(m, key);
      var r := Put(g, key, g.values[key] + [it]);
      && r.values == m.values[key := (if key in m.values then m.values[key] else []) + [it]]
      && r.keys == if key in m.values then m.keys else m.keys + [key]
  {
    if key !in m.values {
      var g := EnsureGroup(m, key);
      assert g.values == m.values[key := []];
      assert g.values[key := [it]] == m.values[key := [it]];
    }
  }

  /** A row that resolves to a key the filter rejects is skipped, but its own
      key still becomes the current one. */
  lemma FilteredStep(cfg: Config, st: ParseState, row: Row, key: string)
    requires st.groups.Valid() && Filtered(cfg.filter, key)
    requires ReadKey(row, cfg.cols.combined) == Key(key)
          || (ReadKey(row, cfg.cols.combined) == BlankKey && st.current == Some(key))
    ensures Step(cfg, st, row) == st.(current := Some(key), skipped := st.skipped + 1)
  {
    var st' := st.(current := Some(key));
    if ReadKey(row, cfg.cols.combined).Key? {
      assert Step(cfg, st, row) == Admit(cfg, st', row, key);
    } else {
      assert st' == st;
      assert Step(cfg, st, row) == Admit(cfg, st, row, key);
    }
  }

  /** A row that resolves to `key` and passes the filter but fails the sku or
      url gate still creates its group, empty when new. */
  lemma TouchStep(cfg: Config, st: ParseState, row: Row, key: string)
    requires st.groups.Valid() && !Filtered(cfg.filter, key)
    requires ReadKey(row, cfg.cols.combined) == Key(key)
          || (ReadKey(row, cfg.cols.combined) == BlankKey && st.current == Some(key))
    requires !SkuAccepted(ReadText(row, cfg.cols.sku)) || !UrlAccepted(ReadText(row, cfg.cols.url))
    ensures var r := Step(cfg, st, row);
      && r.current == Some(key) && r.parsed == st.parsed && r.skipped == st.skipped + 1
      && r.groups == EnsureGroup(st.groups, key)
  {
    var st' := st.(current := Some(key));
    if ReadKey(row, cfg.cols.combined).Key? {
      assert Step(cfg, st, row) == Admit(cfg, st', row, key);
    } else {
      assert st' == st;
      assert Step(cfg, st, row) == Admit(cfg, st, row, key);
    }
  }

  /** The row loop over three rows is three loop iterations. */
  lemma ParseThree(cfg: Config, r0: Row, r1: Row, r2: Row)
    ensures ParseAll(cfg, [r0, r1, r2]) == Step(cfg, Step(cfg, Step(cfg, Init(), r0), r1), r2)
  {
    assert [r0][..0] == [];
    assert ParseAll(cfg, [r0]) == Step(cfg, Init(), r0);
    assert [r0, r1][..1] == [r0];
    assert ParseAll(cfg, [r0, r1]) == Step(cfg, ParseAll(cfg, [r0]), r1);
    assert [r0, r1, r2][..2] == [r0, r1];
  }

  lemma AppendOne<T>(x: T, y: T)
    ensures [] + [x] == [x] && [x] + [y] == [x, y]
  {
  }

  /** Three iterations over accepted rows, the middle one with a blank
      combined SKU: the blank row joins the group of the row above it. */
  lemma InheritAcrossBlank(cfg: Config, r0: Row, r1: Row, r2: Row, k1: string, k2: string, a: Item, b: Item, c: Item)
    requires !Filtered(cfg.filter, k1) && !Filtered(cfg.filter, k2) && k1 != k2
    requires ReadKey(r0, cfg.cols.combined) == Key(k1) && ReadKey(r1, cfg.cols.combined) == BlankKey
    requires ReadKey(r2, cfg.cols.combined) == Key(k2)
    requires RowReads(cfg, r0, a) && RowReads(cfg, r1, b) && RowReads(cfg, r2, c)
    ensures var st := Step(cfg, Step(cfg, Step(cfg, Init(), r0), r1), r2);
      && st.groups.keys == [k1, k2] && st.groups.values[k1] == [a, b] && st.groups.values[k2] == [c]
      && st.parsed == 3 && st.skipped == 0
  {
    var st2 := Step(cfg, Step(cfg, Init(), r0), r1);
    FirstTwoRows(cfg, r0, r1, k1, a, b);
    OpenSecondGroup(cfg, st2, r2, k1, k2, a, b, c);
  }

  /** The third of those iterations: a row with a new key opens a second
      group after the first. */
  lemma OpenSecondGroup(cfg: Config, st2: ParseState, r2: Row, k1: string, k2: string, a: Item, b: Item, c: Item)
    requires st2.groups.Valid() && st2.groups.keys == [k1] && k1 in st2.groups.values
    requires st2.groups.values[k1] == [a, b] && st2.parsed == 2 && st2.skipped == 0
    requires !Filtered(cfg.filter, k2) && k1 != k2
    requires ReadKey(r2, cfg.cols.combined) == Key(k2) && RowReads(cfg, r2, c)
    ensures var st := Step(cfg, st2, r2);
      && st.groups.keys == [k1, k2] && st.groups.values[k1] == [a, b] && st.groups.values[k2] == [c]
      && st.parsed == 3 && st.skipped == 0
  {
    assert k2 !in st2.groups.keys;
    AcceptStep(cfg, st2, r2, k2, c);
    AppendOne(c, c);
    AppendOne(k1, k2);
  }

  /** The first two of those iterations: the row with a key opens its group
      and the blank row under it joins that group. */
  lemma FirstTwoRows(cfg: Config, r0: Row, r1: Row, k1: string, a: Item, b: Item)
    requires !Filtered(cfg.filter, k1)
    requires ReadKey(r0, cfg.cols.combined) == Key(k1) && ReadKey(r1, cfg.cols.combined) == BlankKey
    requires RowReads(cfg, r0, a) && RowReads(cfg, r1, b)
    ensures var st := Step(cfg, Step(cfg, Init(), r0), r1);
      && st.groups.Valid() && st.groups.keys == [k1] && k1 in st.groups.values && st.groups.values[k1] == [a, b]
      && st.current == Some(k1) && st.parsed == 2 && st.skipped == 0
  {
    var st1 := Step(cfg, Init(), r0);
    FirstRow(cfg, r0, k1, a);
    AcceptStep(cfg, st1, r1, k1, b);
    AppendOne(a, b);
  }

  /** One iteration from the initial state over an accepted row. */
  lemma FirstRow(cfg: Config, r0: Row, k1: string, a: Item)
    requires !Filtered(cfg.filter, k1)
    requires ReadKey(r0, cfg.cols.combined) == Key(k1) && RowReads(cfg, r0, a)
    ensures var st := Step(cfg, Init(), r0);
      && st.groups.Valid() && st.groups.keys == [k1] && k1 in st.groups.values && st.groups.values[k1] == [a]
      && st.current == Some(k1) && st.parsed == 1 && st.skipped == 0
  {
    AcceptStep(cfg, Init(), r0, k1, a);
    AppendOne(a, a);
    AppendOne(k1, k1);
  }

  /** Three iterations over rows whose first key the filter rejects: the
      blank row under it inherits the rejected key and is dropped with it. */
  lemma FilterDropsInheritingRow(cfg: Config, r0: Row, r1: Row, r2: Row, k1: string, k2: string, c: Item)
    requires Filtered(cfg.filter, k1) && !Filtered(cfg.filter, k2)
    requires ReadKey(r0, cfg.cols.combined) == Key(k1) && ReadKey(r1, cfg.cols.combined) == BlankKey
    requires ReadKey(r2, cfg.cols.combined) == Key(k2) && RowReads(cfg, r2, c)
    ensures var st := Step(cfg, Step(cfg, Step(cfg, Init(), r0), r1), r2);
      && st.groups.keys == [k2] && st.groups.values[k2] == [c]
      && st.parsed == 1 && st.skipped == 2
  {
    var st0 := Init();
    FilteredStep(cfg, st0, r0, k1);
    var st1 := Step(cfg, st0, r0);
    FilteredStep(cfg, st1, r1, k1);
    var st2 := Step(cfg, st1, r1);
    AcceptStep(cfg, st2, r2, k2, c);
    AppendOne(c, c);
    AppendOne(k2, k2);
  }

  /** A blank combined SKU continues the group above it: three rows, the
      second with no combined SKU, give the first key's group with two items
      and the second key's group with one, in that order. */
  lemma BlankRowJoinsGroupAbove(k1: string, k2: string, a: Item, b: Item, c: Item)
    requires Plain(k1) && Plain(k2) && k1 != k2
    requires Plain(a.sku) && Plain(a.url) && StartsWith(a.url, "http") && a.pcs >= 1
    requires Plain(b.sku) && Plain(b.url) && StartsWith(b.url, "http") && b.pcs >= 1
    requires Plain(c.sku) && Plain(c.url) && StartsWith(c.url, "http") && c.pcs >= 1
    ensures var rows := [SheetRow(Str(k1), a.sku, Int(a.pcs), a.url),
                         SheetRow(Blank, b.sku, Int(b.pcs), b.url),
                         SheetRow(Str(k2), c.sku, Int(c.pcs), c.url)];
      var r := ParseSkuGroups(rows, "A", "B", "C", "D", 1, "");
      && r.Some? && r.value.groups.keys == [k1, k2]
      && r.value.groups.values[k1] == [a, b] && r.value.groups.values[k2] == [c]
      && r.value.parsed == 3 && r.value.skipped == 0
  {
    var r0 := SheetRow(Str(k1), a.sku, Int(a.pcs), a.url);
    var r1 := SheetRow(Blank, b.sku, Int(b.pcs), b.url);
    var r2 := SheetRow(Str(k2), c.sku, Int(c.pcs), c.url);
    var cfg := Config(Columns(0, 1, 2, 3), "");
    DefaultSheet([r0, r1, r2], "");
    SheetRowReads("", Str(k1), a);
    SheetRowReads("", Blank, b);
    SheetRowReads("", Str(k2), c);
    ReadPlainKey(r0, 0, k1);
    ReadPlainKey(r2, 0, k2);
    assert ReadKey(r1, 0) == BlankKey by {
      assert Strip("") == "";
    }
    FilterPassesOneKey("", k1);
    FilterPassesOneKey("", k2);
    InheritAcrossBlank(cfg, r0, r1, r2, k1, k2, a, b, c);
    ParseThree(cfg, r0, r1, r2);
  }

  /** The filter is applied after the current key is updated: a row under a
      filtered-out key is dropped, and so is the blank row below it, which
      inherits that key instead of joining the group the filter selects. */
  lemma FilteredKeyStillInherited(k1: string, k2: string, a: Item, b: Item, c: Item)
    requires Plain(k1) && Plain(k2) && k1 != k2
    requires Plain(a.sku) && Plain(a.url) && StartsWith(a.url, "http") && a.pcs >= 1
    requires Plain(b.sku) && Plain(b.url) && StartsWith(b.url, "http") && b.pcs >= 1
    requires Plain(c.sku) && Plain(c.url) && StartsWith(c.url, "http") && c.pcs >= 1
    ensures var rows := [SheetRow(Str(k1), a.sku, Int(a.pcs), a.url),
                         SheetRow(Blank, b.sku, Int(b.pcs), b.url),
                         SheetRow(Str(k2), c.sku, Int(c.pcs), c.url)];
      var r := ParseSkuGroups(rows, "A", "B", "C", "D", 1, k2);
      && r.Some? && r.value.groups.keys == [k2] && r.value.groups.values[k2] == [c]
      && r.value.parsed == 1 && r.value.skipped == 2
  {
    var r0 := SheetRow(Str(k1), a.sku, Int(a.pcs), a.url);
    var r1 := SheetRow(Blank, b.sku, Int(b.pcs), b.url);
    var r2 := SheetRow(Str(k2), c.sku, Int(c.pcs), c.url);
    var cfg := Config(Columns(0, 1, 2, 3), k2);
    DefaultSheet([r0, r1, r2], k2);
    SheetRowReads(k2, Str(k1), a);
    SheetRowReads(k2, Str(k2), c);
    ReadPlainKey(r0, 0, k1);
    ReadPlainKey(r2, 0, k2);
    NoEdgeSpaceStripsToItself(k2);
    FilterDropsInheritingRow(cfg, r0, r1, r2, k1, k2, c);
    ParseThree(cfg, r0, r1, r2);
  }

  /** A row whose sku cell is blank still creates its combined SKU's group,
      which then holds no item. */
  lemma BlankSkuCreatesEmptyGroup(k: string, url: string)
    requires Plain(k) && Plain(url) && StartsWith(url, "http")
    ensures var r := ParseSkuGroups([SheetRow(Str(k), "", Int(1), url)], "A", "B", "C", "D", 1, "");
      && r.Some? && r.value.groups.keys == [k] && r.value.groups.values[k] == []
      && r.value.parsed == 0 && r.value.skipped == 1
  {
    var r0 := SheetRow(Str(k), "", Int(1), url);
    var cfg := Config(Columns(0, 1, 2, 3), "");
    assert ResolveColumns("A", "B", "C", "D") == cfg.cols;
    assert Scan([r0], 1) == Some([r0]);
    ReadBlankSku(k, url);
    OneTouchedRow(cfg, r0, k);
  }

  lemma ReadBlankSku(k: string, url: string)
    requires Plain(k)
    ensures ReadKey(SheetRow(Str(k), "", Int(1), url), 0) == Key(k)
    ensures ReadText(SheetRow(Str(k), "", Int(1), url), 1) == ""
    ensures !Filtered("", k)
  {
    var row := SheetRow(Str(k), "", Int(1), url);
    assert Render(row[0]) == k && Render(row[1]) == "";
    NoEdgeSpaceStripsToItself(k);
    assert Strip("") == "";
  }

  /** One iteration over a row that fails the sku gate. */
  lemma OneTouchedRow(cfg: Config, r0: Row, k: string)
    requires !Filtered(cfg.filter, k) && ReadKey(r0, cfg.cols.combined) == Key(k)
    requires !SkuAccepted(ReadText(r0, cfg.cols.sku))
    ensures var st := ParseAll(cfg, [r0]);
      && st.groups.keys == [k] && k in st.groups.values && st.groups.values[k] == []
      && st.parsed == 0 && st.skipped == 1
  {
    assert [r0][..0] == [];
    assert ParseAll(cfg, [r0]) == Step(cfg, Init(), r0);
    TouchStep(cfg, Init(), r0, k);
    AppendOne(k, k);
  }
}
