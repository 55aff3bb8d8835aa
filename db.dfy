/** Loading the warehouse tables (utils/db.py): the query text, the per-table
    coercion hints applied to each loaded frame, and the assembly of several
    tables into a dictionary.  The database and pandas' own conversions are
    parameters: the model starts from the frames a query returns. */
module Db {
  import opened Wrappers
  import opened Tables

  // ---------------------------------------------------------------------
  // Frames

  /** One cell of a loaded frame. */
  datatype Cell = NA | Str(s: string) | Num(x: real) | Flag(b: bool) | Time(t: Stamp)

  datatype DType = Object | StringType | Float | Int64 | Boolean | DateTime

  datatype Col = Col(dtype: DType, cells: seq<Cell>)

  /** A frame: its column names in order and the column under each name. */
  datatype Frame = Frame(names: seq<string>, cols: map<string, Col>)

  /** pandas' and Python's conversions, taken as given: `pd.to_datetime`,
      `pd.to_numeric` (both with errors="coerce", so a failure is a missing
      value) and `str()` of a non-string cell. */
  datatype Lib = Lib(toDatetime: Cell -> Option<Stamp>, toNumeric: Cell -> Option<real>, str: Cell -> string)

  /** `str(v)`: a string cell is its own text. */
  function TextOf(lib: Lib, c: Cell): string
  {
    if c.Str? then c.s else lib.str(c)
  }

  // ---------------------------------------------------------------------
  // Text helpers: Python's str.strip() and str.lower()

  /** Python's whitespace (`str.isspace`): the controls 9-13 and 28-31, the
      space, U+0085, U+00A0, U+1680, U+2000-U+200A, U+2028, U+2029, U+202F,
      U+205F and U+3000. */
  predicate IsSpace(c: char)
  {
    var n := c as int;
    c == ' ' || 9 <= n <= 13 || 28 <= n <= 31 || n == 0x85 || n == 0xA0 || n == 0x1680
    || 0x2000 <= n <= 0x200A || n == 0x2028 || n == 0x2029 || n == 0x202F || n == 0x205F || n == 0x3000
  }

  function StripLeft(s: string): (r: string)
    ensures |r| <= |s| && (r == [] || !IsSpace(r[0]))
  {
    if s == [] then s
    else if IsSpace(s[0]) then StripLeft(s[1..])
    else s
  }

  function StripRight(s: string): (r: string)
    ensures |r| <= |s| && (r == [] || !IsSpace(r[|r| - 1]))
    ensures r == s[..|r|]
  {
    if s == [] then s
    else if IsSpace(s[|s| - 1]) then StripRight(s[..|s| - 1])
    else s
  }

  /** `str.strip()`: no whitespace at either end, and only whitespace removed. */
  function Strip(s: string): (r: string)
    ensures r == [] || (!IsSpace(r[0]) && !IsSpace(r[|r| - 1]))
    ensures exists i, j :: Trimmed(s, i, j) && r == s[i..j]
  {
    var l := StripLeft(s);
    var r := StripRight(l);
    assert r != [] ==> r[0] == l[0];
    StripLeftRemovesBlanks(s);
    StripRightRemovesBlanks(l);
    var i := |s| - |l|;
    var j := i + |r|;
    assert r == s[i..j];
    assert forall k :: j <= k < |s| ==> s[k] == l[k - i];
    assert Trimmed(s, i, j);
    r
  }

  /** `s[i..j]` is `s` less some whitespace at each end. */
  predicate Trimmed(s: string, i: int, j: int)
  {
    && 0 <= i <= j <= |s|
    && (forall k :: 0 <= k < i ==> IsSpace(s[k]))
    && (forall k :: j <= k < |s| ==> IsSpace(s[k]))
  }

  /** Only leading whitespace is removed. */
  lemma {:induction false} StripLeftRemovesBlanks(s: string)
    ensures StripLeft(s) == s[|s| - |StripLeft(s)|..]
    ensures forall j :: 0 <= j < |s| - |StripLeft(s)| ==> IsSpace(s[j])
  {
    if s != [] && IsSpace(s[0]) {
      StripLeftRemovesBlanks(s[1..]);
    }
  }

  /** Only trailing whitespace is removed. */
  lemma {:induction false} StripRightRemovesBlanks(s: string)
    ensures forall j :: |StripRight(s)| <= j < |s| ==> IsSpace(s[j])
  {
    if s != [] && IsSpace(s[|s| - 1]) {
      StripRightRemovesBlanks(s[..|s| - 1]);
    }
  }

  lemma {:induction false} StripLeftNoop(s: string)
    requires s == [] || !IsSpace(s[0])
    ensures StripLeft(s) == s
  {
  }

  lemma {:induction false} StripRightKeepsFront(s: string)
    requires s != [] && !IsSpace(s[0])
    ensures StripRight(s) != [] && StripRight(s)[0] == s[0]
    decreases |s|
  {
    if IsSpace(s[|s| - 1]) {
      StripRightKeepsFront(s[..|s| - 1]);
    }
  }

  lemma {:induction false} StripRightNoop(s: string)
    requires s == [] || !IsSpace(s[|s| - 1])
    ensures StripRight(s) == s
  {
  }

  /** Stripping twice is stripping once. */
  lemma StripIdempotent(s: string)
    ensures Strip(Strip(s)) == Strip(s)
  {
    var t := Strip(s);
    StripLeftNoop(t);
    StripRightNoop(t);
  }

  /** ASCII lower-casing. */
  function Lower(s: string): (r: string)
    ensures |r| == |s|
    ensures forall i :: 0 <= i < |s| ==> r[i] == if 'A' <= s[i] <= 'Z' then (s[i] as int + 32) as char else s[i]
  {
    if s == [] then [] else
      [if 'A' <= s[0] <= 'Z' then (s[0] as int + 32) as char else s[0]] + Lower(s[1..])
  }

  // ---------------------------------------------------------------------
  // The boolean token map

  const TrueTokens: seq<string> := ["1", "true", "t", "yes", "y"]
  const FalseTokens: seq<string> := ["0", "false", "f", "no", "n"]

  /** The lambda of the boolean hint, on `str(v).strip().lower()`. */
  function BoolToken(token: string): (r: Option<bool>)
    ensures r == Some(true) <==> token in TrueTokens
    ensures r == Some(false) <==> token in FalseTokens
    ensures r.None? <==> token !in TrueTokens && token !in FalseTokens
  {
    if token in TrueTokens then Some(true)
    else if token in FalseTokens then Some(false)
    else None
  }

  /** The boolean hint on one cell. A missing cell stays missing: `str()` of
      None, NaN or pd.NA is "None", "nan" or "<NA>", and none is a token. */
  function BoolCell(lib: Lib, c: Cell): (r: Cell)
    ensures c.NA? ==> r == NA
    ensures !c.NA? ==> (r == Flag(true) <==> Lower(Strip(TextOf(lib, c))) in TrueTokens)
    ensures !c.NA? ==> (r == Flag(false) <==> Lower(Strip(TextOf(lib, c))) in FalseTokens)
  {
    if c.NA? then NA
    else
      match BoolToken(Lower(Strip(TextOf(lib, c))))
      case Some(b) => Flag(b)
      case None => NA
  }

  /** Text with no whitespace at either end. */
  predicate Unpadded(s: string)
  {
    s == [] || (!IsSpace(s[0]) && !IsSpace(s[|s| - 1]))
  }

  lemma StripLeftBlank(x: string)
    ensures StripLeft(" " + x) == StripLeft(x)
  {
    assert (" " + x)[1..] == x;
  }

  lemma StripRightBlank(x: string)
    ensures StripRight(x + " ") == StripRight(x)
  {
    assert (x + " ")[..|x|] == x;
  }

  /** Stripping removes the blanks around text and nothing of the text. */
  lemma StripPadding(s: string)
    requires Unpadded(s)
    ensures Strip(s) == s
    ensures Strip(" " + s + " ") == s
  {
    StripLeftNoop(s);
    StripRightNoop(s);
    StripLeftBlank(s + " ");
    assert " " + s + " " == " " + (s + " ");
    if s == [] {
      assert StripLeft(s + " ") == [];
    } else {
      StripLeftNoop(s + " ");
      StripRightBlank(s);
    }
  }

  /** Python's wider whitespace is stripped too: an ideographic space after
      "NULL" still makes a missing value, and after "yes" still a True. */
  lemma WideBlanks(lib: Lib)
    ensures CleanCell(lib, Str("NULL\U{3000}")) == NA
    ensures BoolCell(lib, Str("yes\U{2003}")) == Flag(true)
  {
    WideBlankNull(lib);
    WideBlankToken(lib);
  }

  lemma WideBlankNull(lib: Lib)
    ensures CleanCell(lib, Str("NULL\U{3000}")) == NA
  {
    assert StripLeft("NULL\U{3000}") == "NULL\U{3000}";
    assert "NULL\U{3000}"[..4] == "NULL";
    assert StripRight("NULL") == "NULL";
    assert Strip(TextOf(lib, Str("NULL\U{3000}"))) == "NULL";
  }

  lemma WideBlankToken(lib: Lib)
    ensures BoolCell(lib, Str("yes\U{2003}")) == Flag(true)
  {
    assert StripLeft("yes\U{2003}") == "yes\U{2003}";
    assert "yes\U{2003}"[..3] == "yes";
    assert StripRight("yes") == "yes";
    assert Strip(TextOf(lib, Str("yes\U{2003}"))) == "yes";
    assert Lower("yes") == "yes";
    assert "yes" in TrueTokens;
  }

  /** Blanks around a token do not change what it means. */
  lemma BoolTokenPadding(lib: Lib, s: string)
    requires Unpadded(s)
    ensures BoolCell(lib, Str(" " + s + " ")) == BoolCell(lib, Str(s))
  {
    StripPadding(s);
  }

  // ---------------------------------------------------------------------
  // Table configuration

  const TableNames: map<string, string> := map[
    "products" := "Products",
    "website_sessions" := "WebsiteSessions",
    "website_pageviews" := "WebsitePageViews",
    "orders" := "Orders",
    "order_items" := "OrderItems",
    "order_item_refunds" := "OrderItemRefunds"]

  /** PARSE_DATES: every known table parses created_at; others parse nothing. */
  function DateColumns(tableKey: string): seq<string>
  {
    if tableKey in TableNames then ["created_at"] else []
  }

  /** A per-table list of (column, dtype name) hints. */
  type HintTable = seq<(string, seq<(string, string)>)>

  /** DTYPES_HINTS, in dictionary order.  Note that the session table's hint
      names "http_referrer" while the session filter reads "http_referer". */
  const DtypeHints: HintTable := [
    ("products", [("product_id", "string"), ("product_name", "string")]),
    ("website_pageviews",
     [("website_pageview_id", "string"), ("website_session_id", "string"), ("pageview_url", "string")]),
    ("order_item_refunds",
     [("order_item_refund_id", "string"), ("order_item_id", "string"), ("order_id", "string"),
      ("refund_amount_usd", "float")]),
    ("website_sessions",
     [("website_session_id", "string"), ("user_id", "string"), ("is_repeat_session", "boolean"),
      ("utm_source", "string"), ("utm_campaign", "string"), ("utm_content", "string"),
      ("device_type", "string"), ("http_referrer", "string")]),
    ("orders",
     [("order_id", "string"), ("website_session_id", "string"), ("user_id", "string"),
      ("primary_product_id", "string"), ("items_purchased", "Int64"), ("price_usd", "float"),
      ("cogs_usd", "float")]),
    ("order_items",
     [("order_item_id", "string"), ("order_id", "string"), ("product_id", "string"),
      ("is_primary_item", "boolean"), ("price_usd", "float"), ("cogs_usd", "float")])]

  /** `DTYPES_HINTS.get(key, {})`: the hints of the first entry under the
      key, and no hints for a key without an entry. */
  function Lookup(entries: HintTable, key: string): (r: seq<(string, string)>)
    ensures (forall i :: 0 <= i < |entries| ==> entries[i].0 != key) ==> r == []
    ensures forall i :: 0 <= i < |entries| && entries[i].0 == key && FirstEntry(entries, key, i) ==> r == entries[i].1
  {
    if entries == [] then []
    else if entries[0].0 == key then entries[0].1
    else Lookup(entries[1..], key)
  }

  /** No entry before position `i` is under the key. */
  predicate FirstEntry(entries: HintTable, key: string, i: nat)
  {
    forall j :: 0 <= j < i && j < |entries| ==> entries[j].0 != key
  }

  // ---------------------------------------------------------------------
  // _apply_hints

  /** `pd.to_datetime(errors="coerce")` on one cell. */
  function DateCell(lib: Lib, v: Cell): Cell
  {
    if lib.toDatetime(v).Some? then Time(lib.toDatetime(v).value) else NA
  }

  function DateCells(lib: Lib, cells: seq<Cell>): (r: seq<Cell>)
    ensures |r| == |cells| && forall i :: 0 <= i < |cells| ==> r[i] == DateCell(lib, cells[i])
  {
    seq(|cells|, i requires 0 <= i < |cells| => DateCell(lib, cells[i]))
  }

  /** One round of the date loop: a present column becomes its parsed cells,
      typed as a date; every other column is left alone. */
  function ParseDate(lib: Lib, df: Frame, c: string): (r: Frame)
    ensures r.names == df.names && r.cols.Keys == df.cols.Keys
    ensures c !in df.cols ==> r == df
    ensures c in df.cols ==> r.cols[c] == Col(DateTime, DateCells(lib, df.cols[c].cells))
    ensures forall d :: d in df.cols && d != c ==> r.cols[d] == df.cols[d]
  {
    if c in df.cols then
      df.(cols := df.cols[c := Col(DateTime, DateCells(lib, df.cols[c].cells))])
    else df
  }

  /** The date loop over a list of columns, as a fold: a present column
      listed once becomes its `to_datetime(errors="coerce")` cells, and an
      unlisted column is unchanged. */
  function ParseDates(lib: Lib, df: Frame, cs: seq<string>): (r: Frame)
    ensures r.names == df.names && r.cols.Keys == df.cols.Keys
    ensures forall d :: d in df.cols && d !in cs ==> r.cols[d] == df.cols[d]
    ensures forall d :: d in df.cols && multiset(cs)[d] == 1 ==> r.cols[d] == Col(DateTime, DateCells(lib, df.cols[d].cells))
  {
    if cs == [] then df
    else
      var init := cs[..|cs| - 1];
      assert cs == init + [cs[|cs| - 1]];
      ParseDate(lib, ParseDates(lib, df, init), cs[|cs| - 1])
  }

  function AsString(lib: Lib, c: Cell): Cell
  {
    if c.NA? then NA else Str(TextOf(lib, c))
  }

  function NumericCell(lib: Lib, c: Cell): Cell
  {
    if lib.toNumeric(c).Some? then Num(lib.toNumeric(c).value) else NA
  }

  predicate Integral(x: real)
  {
    x == x.Floor as real
  }

  /** A cell `to_numeric` reads as a number with a fractional part. */
  predicate NonIntegral(lib: Lib, c: Cell)
  {
    lib.toNumeric(c).Some? && !Integral(lib.toNumeric(c).value)
  }

  function StringCells(lib: Lib, cells: seq<Cell>): (r: seq<Cell>)
    ensures |r| == |cells| && forall i :: 0 <= i < |cells| ==> r[i] == AsString(lib, cells[i])
  {
    seq(|cells|, i requires 0 <= i < |cells| => AsString(lib, cells[i]))
  }

  function NumericCells(lib: Lib, cells: seq<Cell>): (r: seq<Cell>)
    ensures |r| == |cells| && forall i :: 0 <= i < |cells| ==> r[i] == NumericCell(lib, cells[i])
  {
    seq(|cells|, i requires 0 <= i < |cells| => NumericCell(lib, cells[i]))
  }

  function BoolCells(lib: Lib, cells: seq<Cell>): (r: seq<Cell>)
    ensures |r| == |cells| && forall i :: 0 <= i < |cells| ==> r[i] == BoolCell(lib, cells[i])
  {
    seq(|cells|, i requires 0 <= i < |cells| => BoolCell(lib, cells[i]))
  }

  /** One hint applied to one column; `Err` is the exception the try block
      swallows (a non-integral number cast to Int64).  An unknown hint leaves
      the column as it is. */
  function Convert(lib: Lib, col: Col, hint: string): (r: Result<Col, string>)
    ensures r.Err? <==> hint == "Int64" && exists i :: 0 <= i < |col.cells| && NonIntegral(lib, col.cells[i])
    ensures hint in ["string", "str"] ==> r == Ok(Col(StringType, StringCells(lib, col.cells)))
    ensures r.Ok? && hint == "Int64" ==> r.value == Col(Int64, NumericCells(lib, col.cells))
    ensures hint in ["float", "numeric"] ==> r == Ok(Col(Float, NumericCells(lib, col.cells)))
    ensures hint in ["boolean", "bool"] ==> r == Ok(Col(Boolean, BoolCells(lib, col.cells)))
    ensures hint !in ["string", "str", "Int64", "float", "numeric", "boolean", "bool"] ==> r == Ok(col)
  {
    if hint in ["string", "str"] then Ok(Col(StringType, StringCells(lib, col.cells)))
    else if hint == "Int64" then
      if exists i :: 0 <= i < |col.cells| && NonIntegral(lib, col.cells[i])
      then Err("cannot safely cast non-equivalent float64 to int64")
      else Ok(Col(Int64, NumericCells(lib, col.cells)))
    else if hint in ["float", "numeric"] then Ok(Col(Float, NumericCells(lib, col.cells)))
    else if hint in ["boolean", "bool"] then Ok(Col(Boolean, BoolCells(lib, col.cells)))
    else Ok(col)
  }

  /** One round of the hint loop: a missing column is skipped, a conversion
      that raises leaves the column unchanged. */
  function ApplyDtype(lib: Lib, df: Frame, hint: (string, string)): (r: Frame)
    ensures r.names == df.names && r.cols.Keys == df.cols.Keys
    ensures hint.0 !in df.cols ==> r == df
    ensures hint.0 in df.cols && Convert(lib, df.cols[hint.0], hint.1).Err? ==> r == df
    ensures hint.0 in df.cols && Convert(lib, df.cols[hint.0], hint.1).Ok? ==>
      r.cols[hint.0] == Convert(lib, df.cols[hint.0], hint.1).value
    ensures forall c :: c in df.cols && c != hint.0 ==> r.cols[c] == df.cols[c]
  {
    if hint.0 !in df.cols then df
    else match Convert(lib, df.cols[hint.0], hint.1)
      case Err(_) => df
      case Ok(col) => df.(cols := df.cols[hint.0 := col])
  }

  function ApplyDtypes(lib: Lib, df: Frame, hints: seq<(string, string)>): (r: Frame)
    ensures r.names == df.names && r.cols.Keys == df.cols.Keys
  {
    if hints == [] then df else ApplyDtype(lib, ApplyDtypes(lib, df, hints[..|hints| - 1]), hints[|hints| - 1])
  }

  /** A column no hint names keeps its contents through the hint loop. */
  lemma {:induction false} UnhintedColumnsUnchanged(lib: Lib, df: Frame, hints: seq<(string, string)>, c: string)
    requires c in df.cols
    requires forall i :: 0 <= i < |hints| ==> hints[i].0 != c
    ensures ApplyDtypes(lib, df, hints).cols[c] == df.cols[c]
  {
    if hints != [] {
      UnhintedColumnsUnchanged(lib, df, hints[..|hints| - 1], c);
    }
  }

  /** The exact texts the final pass turns into missing values. */
  predicate NullText(t: string)
  {
    t == "" || t == "NA" || t == "NULL"
  }

  /** The final pass on text columns: strip, then exactly "", "NA" and
      "NULL" become missing (the match is case-sensitive). */
  function CleanCell(lib: Lib, c: Cell): (r: Cell)
    ensures r.NA? || r.Str?
    ensures r.Str? ==> r.s == Strip(TextOf(lib, c)) && !NullText(r.s)
    ensures c.NA? ==> r.NA?
  {
    if c.NA? then NA
    else
      var t := Strip(TextOf(lib, c));
      if NullText(t) then NA else Str(t)
  }

  /** Cleaning a cleaned cell changes nothing. */
  lemma CleanCellIdempotent(lib: Lib, c: Cell)
    ensures CleanCell(lib, CleanCell(lib, c)) == CleanCell(lib, c)
  {
    var r := CleanCell(lib, c);
    if r.Str? {
      StripIdempotent(TextOf(lib, c));
      assert TextOf(lib, r) == r.s;
    }
  }

  /** On text without surrounding blanks, with or without blanks around it,
      the final pass keeps the text unless it is exactly one of the null
      spellings: "null" and "Null" survive. */
  lemma CleanText(lib: Lib, s: string)
    requires Unpadded(s)
    ensures CleanCell(lib, Str(s)) == (if NullText(s) then NA else Str(s))
    ensures CleanCell(lib, Str(" " + s + " ")) == CleanCell(lib, Str(s))
  {
    StripPadding(s);
    var t := Strip(s);
    assert t == s;
    assert Strip(TextOf(lib, Str(s))) == s;
    assert Strip(TextOf(lib, Str(" " + s + " "))) == s;
  }

  function CleanCells(lib: Lib, cells: seq<Cell>): (r: seq<Cell>)
    ensures |r| == |cells| && forall i :: 0 <= i < |cells| ==> r[i] == CleanCell(lib, cells[i])
  {
    seq(|cells|, i requires 0 <= i < |cells| => CleanCell(lib, cells[i]))
  }

  /** One pass of the text-column loop: a column still in the frame is
      replaced by its cleaned cells, typed as string. */
  function CleanColumn(lib: Lib, df: Frame, c: string): (r: Frame)
    ensures r.names == df.names && r.cols.Keys == df.cols.Keys
    ensures c in df.cols ==> r.cols[c] == Col(StringType, CleanCells(lib, df.cols[c].cells))
    ensures forall d :: d in df.cols && d != c ==> r.cols[d] == df.cols[d]
  {
    if c in df.cols then
      df.(cols := df.cols[c := Col(StringType, CleanCells(lib, df.cols[c].cells))])
    else df
  }

  /** The text-column loop: every listed column is cleaned (once or more,
      which is the same, cleaning being idempotent) and typed as string;
      every other column is left as it was. */
  function CleanColumns(lib: Lib, df: Frame, cs: seq<string>): (r: Frame)
    ensures r.names == df.names && r.cols.Keys == df.cols.Keys
    ensures forall c :: c in cs && c in df.cols ==> r.cols[c] == Col(StringType, CleanCells(lib, df.cols[c].cells))
    ensures forall d :: d in df.cols && d !in cs ==> r.cols[d] == df.cols[d]
  {
    if cs == [] then df
    else
      var init := cs[..|cs| - 1];
      var last := cs[|cs| - 1];
      var prev := CleanColumns(lib, df, init);
      assert cs == init + [last];
      assert last in df.cols && last in init ==> prev.cols[last].cells == CleanCells(lib, df.cols[last].cells);
      assert last in df.cols ==> CleanCells(lib, CleanCells(lib, df.cols[last].cells)) == CleanCells(lib, df.cols[last].cells) by {
        if last in df.cols {
          CleanCellsIdempotent(lib, df.cols[last].cells);
        }
      }
      CleanColumn(lib, prev, last)
  }

  /** Cleaning cleaned cells changes nothing. */
  lemma CleanCellsIdempotent(lib: Lib, cells: seq<Cell>)
    ensures CleanCells(lib, CleanCells(lib, cells)) == CleanCells(lib, cells)
  {
    forall i | 0 <= i < |cells| {
      CleanCellIdempotent(lib, cells[i]);
    }
  }

  /** `df.select_dtypes(include=["object", "string"]).columns`, in column order. */
  function TextColumns(df: Frame): (r: seq<string>)
    ensures forall c :: c in r ==> c in df.cols && df.cols[c].dtype in {Object, StringType}
  {
    TextColumnsOf(df.names, df.cols)
  }

  function TextColumnsOf(names: seq<string>, cols: map<string, Col>): (r: seq<string>)
    ensures forall c :: c in r ==> c in names && c in cols && cols[c].dtype in {Object, StringType}
    ensures forall c :: c in names && c in cols && cols[c].dtype in {Object, StringType} ==> c in r
  {
    if names == [] then []
    else
      (if names[0] in cols && cols[names[0]].dtype in {Object, StringType} then [names[0]] else [])
      + TextColumnsOf(names[1..], cols)
  }

  /** What _apply_hints makes of a frame. */
  function HintsApplied(lib: Lib, hints: HintTable, df: Frame, tableKey: string): (r: Frame)
    ensures r.names == df.names && r.cols.Keys == df.cols.Keys
    ensures var typed := Typed(lib, hints, df, tableKey);
      forall c :: c in typed.names && c in typed.cols && typed.cols[c].dtype in {Object, StringType} ==>
        r.cols[c] == Col(StringType, CleanCells(lib, typed.cols[c].cells))
    ensures var typed := Typed(lib, hints, df, tableKey);
      forall c :: c in typed.cols && !(c in typed.names && typed.cols[c].dtype in {Object, StringType}) ==>
        r.cols[c] == typed.cols[c]
  {
    var typed := Typed(lib, hints, df, tableKey);
    CleanColumns(lib, typed, TextColumns(typed))
  }

  /** The frame after the date and dtype passes of _apply_hints. */
  function Typed(lib: Lib, hints: HintTable, df: Frame, tableKey: string): (r: Frame)
    ensures r.names == df.names && r.cols.Keys == df.cols.Keys
  {
    var dated := ParseDates(lib, df, DateColumns(tableKey));
    ApplyDtypes(lib, dated, Lookup(hints, tableKey))
  }

  /** The date loop of _apply_hints. */
  method ParseDateColumns(lib: Lib, df0: Frame, dateCols: seq<string>) returns (df: Frame)
    ensures df == ParseDates(lib, df0, dateCols)
  {
    df := df0;
    var i := 0;
    while i < |dateCols|
      invariant 0 <= i <= |dateCols|
      invariant df == ParseDates(lib, df0, dateCols[..i])
    {
      var c := dateCols[i];
      assert dateCols[..i + 1][..i] == dateCols[..i];
      if c in df.cols {
        df := df.(cols := df.cols[c := Col(DateTime, DateCells(lib, df.cols[c].cells))]);
      }
      i := i + 1;
    }
    assert dateCols[..i] == dateCols;
  }

  /** The hint loop of _apply_hints. */
  method ApplyDtypeHints(lib: Lib, df0: Frame, hints: seq<(string, string)>) returns (df: Frame)
    ensures df == ApplyDtypes(lib, df0, hints)
  {
    df := df0;
    var i := 0;
    while i < |hints|
      invariant 0 <= i <= |hints|
      invariant df == ApplyDtypes(lib, df0, hints[..i])
    {
      var (col, hint) := hints[i];
      assert hints[..i + 1][..i] == hints[..i];
      if col in df.cols {
        var converted := Convert(lib, df.cols[col], hint);
        if converted.Ok? {
          df := df.(cols := df.cols[col := converted.value]);
        }
      }
      i := i + 1;
    }
    assert hints[..i] == hints;
  }

  lemma CleanColumnsStep(lib: Lib, df: Frame, cs: seq<string>, i: nat)
    requires i < |cs|
    ensures CleanColumns(lib, df, cs[..i + 1]) == CleanColumn(lib, CleanColumns(lib, df, cs[..i]), cs[i])
  {
    assert cs[..i + 1][..i] == cs[..i];
  }

  /** The text-column loop of _apply_hints. */
  method CleanTextColumns(lib: Lib, df0: Frame) returns (df: Frame)
    ensures df == CleanColumns(lib, df0, TextColumns(df0))
  {
    df := df0;
    var textCols := TextColumns(df0);
    var i := 0;
    while i < |textCols|
      invariant 0 <= i <= |textCols|
      invariant df == CleanColumns(lib, df0, textCols[..i])
    {
      var c := textCols[i];
      CleanColumnsStep(lib, df0, textCols, i);
      df := CleanColumn(lib, df, c);
      i := i + 1;
    }
    assert textCols[..i] == textCols;
  }

  /** _apply_hints: dates, then hints, then the text columns, each pass
      rewriting columns of the frame it is given. */
  method ApplyHints(lib: Lib, hints: HintTable, df0: Frame, tableKey: string) returns (df: Frame)
    ensures df == HintsApplied(lib, hints, df0, tableKey)
    ensures df.names == df0.names && df.cols.Keys == df0.cols.Keys
  {
    df := ParseDateColumns(lib, df0, DateColumns(tableKey));
    df := ApplyDtypeHints(lib, df, Lookup(hints, tableKey));
    df := CleanTextColumns(lib, df);
  }

  // ---------------------------------------------------------------------
  // load_table, load_tables

  /** The SQL text: "SELECT * FROM {SCHEMA}.{table}", with " WHERE {clause}"
      only for a non-empty clause; an unknown table key is a KeyError. */
  function Query(schema: string, tableKey: string, whereClause: Option<string>): (r: Result<string, string>)
    ensures r.Err? <==> tableKey !in TableNames
    ensures r.Ok? && (whereClause.None? || whereClause.value == "") ==>
      r.value == "SELECT * FROM " + schema + "." + TableNames[tableKey]
    ensures r.Ok? && whereClause.Some? && whereClause.value != "" ==>
      r.value == "SELECT * FROM " + schema + "." + TableNames[tableKey] + " WHERE " + whereClause.value
  {
    if tableKey !in TableNames then Err("KeyError: " + tableKey)
    else
      var q := "SELECT * FROM " + schema + "." + TableNames[tableKey];
      if whereClause.Some? && whereClause.value != "" then Ok(q + " WHERE " + whereClause.value) else Ok(q)
  }

  /** The clause is appended verbatim after the table, so the plain query is
      a prefix of the filtered one. */
  lemma QueryExtendsPlain(schema: string, tableKey: string, clause: string)
    requires tableKey in TableNames && clause != ""
    ensures Query(schema, tableKey, Some(clause)).value
         == Query(schema, tableKey, None).value + " WHERE " + clause
  {
  }

  /** The database: the frame a query returns, and the chunks a chunked read
      of it yields. */
  datatype Database = Database(read: string -> Frame, readChunks: (string, nat) -> seq<Frame>)

  /** A loaded table as the list of its hinted parts in read order; a
      non-chunked read is one part, and no parts is the empty frame. */
  datatype Loaded = Loaded(parts: seq<Frame>)

  /** The table a query text loads: each chunk hinted in read order, or the
      single frame of a non-chunked read.  A chunk size of 0 is falsy. */
  function LoadedFrom(lib: Lib, hints: HintTable, db: Database, tableKey: string, q: string, chunksize: nat): (r: Loaded)
    ensures chunksize == 0 ==> r.parts == [HintsApplied(lib, hints, db.read(q), tableKey)]
    ensures chunksize > 0 ==> |r.parts| == |db.readChunks(q, chunksize)|
    ensures chunksize > 0 ==> forall i :: 0 <= i < |r.parts| ==>
      r.parts[i] == HintsApplied(lib, hints, db.readChunks(q, chunksize)[i], tableKey)
  {
    if chunksize > 0 then
      var chunks := db.readChunks(q, chunksize);
      Loaded(seq(|chunks|, i requires 0 <= i < |chunks| => HintsApplied(lib, hints, chunks[i], tableKey)))
    else Loaded([HintsApplied(lib, hints, db.read(q), tableKey)])
  }

  function LoadedTable(lib: Lib, hints: HintTable, db: Database, schema: string, tableKey: string,
                       whereClause: Option<string>, chunksize: nat): (r: Result<Loaded, string>)
    ensures r.Err? <==> tableKey !in TableNames
    ensures r.Ok? ==> r.value == LoadedFrom(lib, hints, db, tableKey, Query(schema, tableKey, whereClause).value, chunksize)
  {
    match Query(schema, tableKey, whereClause)
    case Err(e) => Err(e)
    case Ok(q) => Ok(LoadedFrom(lib, hints, db, tableKey, q, chunksize))
  }

  lemma PushPreserves(parts: seq<Frame>, part: Frame)
    ensures |parts + [part]| == |parts| + 1 && (parts + [part])[|parts|] == part
    ensures forall j :: 0 <= j < |parts| ==> (parts + [part])[j] == parts[j]
  {
  }

  /** The chunk loop of load_table: each chunk hinted, in read order. */
  method HintChunks(lib: Lib, hints: HintTable, chunks: seq<Frame>, tableKey: string) returns (parts: seq<Frame>)
    ensures |parts| == |chunks|
    ensures forall j :: 0 <= j < |chunks| ==> parts[j] == HintsApplied(lib, hints, chunks[j], tableKey)
  {
    parts := [];
    var i := 0;
    while i < |chunks|
      invariant 0 <= i <= |chunks|
      invariant |parts| == i
      invariant forall j :: 0 <= j < i ==> parts[j] == HintsApplied(lib, hints, chunks[j], tableKey)
    {
      var part := ApplyHints(lib, hints, chunks[i], tableKey);
      PushPreserves(parts, part);
      parts := parts + [part];
      i := i + 1;
    }
  }

  /** The read of load_table, chunked or whole. */
  method ReadTable(lib: Lib, hints: HintTable, db: Database, tableKey: string, q: string, chunksize: nat) returns (t: Loaded)
    ensures t == LoadedFrom(lib, hints, db, tableKey, q, chunksize)
  {
    if chunksize > 0 {
      var parts := HintChunks(lib, hints, db.readChunks(q, chunksize), tableKey);
      t := Loaded(parts);
    } else {
      var df := ApplyHints(lib, hints, db.read(q), tableKey);
      t := Loaded([df]);
    }
  }

  /** load_table: an unknown key raises before anything is read. */
  method LoadTable(lib: Lib, hints: HintTable, db: Database, schema: string, tableKey: string,
                   whereClause: Option<string>, chunksize: nat) returns (r: Result<Loaded, string>)
    ensures r == LoadedTable(lib, hints, db, schema, tableKey, whereClause, chunksize)
  {
    var q := Query(schema, tableKey, whereClause);
    if q.Err? {
      return Err(q.error);
    }
    var t := ReadTable(lib, hints, db, tableKey, q.value, chunksize);
    r := Ok(t);
  }

  /** The dictionary load_tables builds from the keys, first to last; the
      first unknown key raises. */
  function LoadedTables(lib: Lib, hints: HintTable, db: Database, schema: string, keys: seq<string>,
                        whereClause: Option<string>): Result<map<string, Loaded>, string>
  {
    if keys == [] then Ok(map[])
    else match LoadedTables(lib, hints, db, schema, keys[..|keys| - 1], whereClause)
      case Err(e) => Err(e)
      case Ok(m) =>
        match LoadedTable(lib, hints, db, schema, keys[|keys| - 1], whereClause, 0)
        case Err(e) => Err(e)
        case Ok(t) => Ok(m[keys[|keys| - 1] := t])
  }

  /** The call raises exactly when some requested key is unknown. */
  lemma {:induction false} LoadedTablesFails(lib: Lib, hints: HintTable, db: Database, schema: string, keys: seq<string>,
                                             whereClause: Option<string>)
    ensures LoadedTables(lib, hints, db, schema, keys, whereClause).Err? <==> exists k :: k in keys && k !in TableNames
  {
    if keys != [] {
      var init := keys[..|keys| - 1];
      var last := keys[|keys| - 1];
      assert keys == init + [last];
      LoadedTablesFails(lib, hints, db, schema, init, whereClause);
    }
  }

  /** One entry per requested key. */
  lemma {:induction false} LoadedTablesKeys(lib: Lib, hints: HintTable, db: Database, schema: string, keys: seq<string>,
                                            whereClause: Option<string>)
    requires LoadedTables(lib, hints, db, schema, keys, whereClause).Ok?
    ensures LoadedTables(lib, hints, db, schema, keys, whereClause).value.Keys == set k | k in keys
  {
    if keys != [] {
      var init := keys[..|keys| - 1];
      var last := keys[|keys| - 1];
      assert keys == init + [last];
      var prefix := LoadedTables(lib, hints, db, schema, init, whereClause);
      var t := LoadedTable(lib, hints, db, schema, last, whereClause, 0);
      assert prefix.Ok? && t.Ok?;
      LoadedTablesKeys(lib, hints, db, schema, init, whereClause);
      assert LoadedTables(lib, hints, db, schema, keys, whereClause) == Ok(prefix.value[last := t.value]);
      forall k ensures k in keys <==> k in init || k == last {
        if k in keys {
          var j :| 0 <= j < |keys| && keys[j] == k;
          if j < |keys| - 1 { assert init[j] == k; }
        }
      }
    }
  }

  /** Each entry is the table its key loads. */
  lemma {:induction false} LoadedTablesEntries(lib: Lib, hints: HintTable, db: Database, schema: string, keys: seq<string>,
                                               whereClause: Option<string>, k: string)
    requires LoadedTables(lib, hints, db, schema, keys, whereClause).Ok?
    requires k in LoadedTables(lib, hints, db, schema, keys, whereClause).value
    ensures LoadedTable(lib, hints, db, schema, k, whereClause, 0) == Ok(LoadedTables(lib, hints, db, schema, keys, whereClause).value[k])
  {
    var init := keys[..|keys| - 1];
    var last := keys[|keys| - 1];
    if k != last {
      LoadedTablesEntries(lib, hints, db, schema, init, whereClause, k);
    }
  }

  /** One more key: its table is added, or its error raised. */
  lemma LoadedTablesStep(lib: Lib, hints: HintTable, db: Database, schema: string, keys: seq<string>,
                         i: nat, whereClause: Option<string>, m: map<string, Loaded>)
    requires i < |keys|
    requires LoadedTables(lib, hints, db, schema, keys[..i], whereClause) == Ok(m)
    ensures LoadedTable(lib, hints, db, schema, keys[i], whereClause, 0).Ok? ==>
      LoadedTables(lib, hints, db, schema, keys[..i + 1], whereClause)
        == Ok(m[keys[i] := LoadedTable(lib, hints, db, schema, keys[i], whereClause, 0).value])
    ensures LoadedTable(lib, hints, db, schema, keys[i], whereClause, 0).Err? ==>
      LoadedTables(lib, hints, db, schema, keys, whereClause) == Err(LoadedTable(lib, hints, db, schema, keys[i], whereClause, 0).error)
  {
    assert keys[..i + 1][..i] == keys[..i];
    if LoadedTable(lib, hints, db, schema, keys[i], whereClause, 0).Err? {
      LoadedTablesPropagatesError(lib, hints, db, schema, keys, i + 1, whereClause);
    }
  }

  /** load_tables: the loop over the keys, each table stored under its key. */
  method LoadTables(lib: Lib, hints: HintTable, db: Database, schema: string, keys: seq<string>,
                    whereClause: Option<string>) returns (r: Result<map<string, Loaded>, string>)
    ensures r == LoadedTables(lib, hints, db, schema, keys, whereClause)
  {
    var dfs: map<string, Loaded> := map[];
    var i := 0;
    while i < |keys|
      invariant 0 <= i <= |keys|
      invariant LoadedTables(lib, hints, db, schema, keys[..i], whereClause) == Ok(dfs)
    {
      LoadedTablesStep(lib, hints, db, schema, keys, i, whereClause, dfs);
      var t := LoadTable(lib, hints, db, schema, keys[i], whereClause, 0);
      if t.Err? {
        return Err(t.error);
      }
      dfs := dfs[keys[i] := t.value];
      i := i + 1;
    }
    assert keys[..i] == keys;
    r := Ok(dfs);
  }

  /** Once a prefix of the keys raises, the whole call raises the same error. */
  lemma {:induction false} LoadedTablesPropagatesError(lib: Lib, hints: HintTable, db: Database, schema: string, keys: seq<string>,
                                                       n: nat, whereClause: Option<string>)
    requires n <= |keys|
    requires LoadedTables(lib, hints, db, schema, keys[..n], whereClause).Err?
    ensures LoadedTables(lib, hints, db, schema, keys, whereClause) == LoadedTables(lib, hints, db, schema, keys[..n], whereClause)
    decreases |keys| - n
  {
    if n < |keys| {
      assert keys[..n + 1][..n] == keys[..n];
      LoadedTablesPropagatesError(lib, hints, db, schema, keys, n + 1, whereClause);
    } else {
      assert keys[..n] == keys;
    }
  }
}
