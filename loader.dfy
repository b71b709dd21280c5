/**
 * `load_data` of busan.py: read the cargo-volume CSV with a fixed list of
 * fallback encodings, strip the column headers, and add a `<col>_만톤`
 * column (the value in units of 10,000 tonnes) for each volume column that
 * is present.  pandas' `read_csv` is not modelled: each encoding attempt is
 * an opaque result, `read(enc)`, that is either a parsed table or a failure.
 */
module Loader {
  import opened Wrappers
  import opened Text

  datatype Encoding = Utf8Sig | Cp949 | EucKr

  /** The encodings tried, in this order. */
  const Encodings: seq<Encoding> := [Utf8Sig, Cp949, EucKr]

  /** The volume columns that get a derived column. */
  const TargetCols: seq<string> := ["총계", "외항소계", "외항입항", "외항출항", "외항입항환적", "외항출항환적", "내항연안화물"]

  /** Appended to a volume column's name to name its derived column. */
  const Suffix: string := "_만톤"

  /** The unit conversion: tonnes to units of 10,000 tonnes. */
  const Scale: real := 10000.0

  /** One column's cells: numeric, or text (pandas' object dtype). */
  datatype Column = Numeric(values: seq<real>) | Textual(cells: seq<string>)

  datatype Entry = Entry(name: string, data: Column)

  /** A data frame's columns, in order.  Names need not be distinct. */
  type Table = seq<Entry>

  function Length(c: Column): nat {
    match c
    case Numeric(v) => |v|
    case Textual(w) => |w|
  }

  /** Every column has `height` cells. */
  predicate Rectangular(t: Table, height: nat) {
    forall k :: 0 <= k < |t| ==> Length(t[k].data) == height
  }

  /** `df.columns` */
  function Names(t: Table): seq<string> {
    seq(|t|, k requires 0 <= k < |t| => t[k].name)
  }

  /** The data of every column named `key`, in order. */
  function Named(t: Table, key: string): (r: seq<Column>)
    ensures |r| <= |t|
  {
    if t == [] then []
    else (if t[0].name == key then [t[0].data] else []) + Named(t[1..], key)
  }

  /** What `df[key]` denotes: nothing, one column, or (for a repeated
      name) a frame of several columns. */
  datatype Selection = Missing | Single(column: Column) | Several

  function Select(t: Table, key: string): Selection {
    var cs := Named(t, key);
    if |cs| == 0 then Missing else if |cs| == 1 then Single(cs[0]) else Several
  }

  /** `df.columns = names` */
  function Renamed(t: Table, names: seq<string>): (r: Table)
    requires |names| == |t|
  {
    seq(|t|, k requires 0 <= k < |t| => Entry(names[k], t[k].data))
  }

  /** `df.columns = df.columns.str.strip()` */
  function StripNames(t: Table): Table {
    Renamed(t, StripAll(Names(t)))
  }

  /** `df[key] = c` when `key` is already a column: every column of that
      name now holds `c`. */
  function Replace(t: Table, key: string, c: Column): (r: Table)
    ensures |r| == |t|
    ensures forall k :: 0 <= k < |t| ==> r[k].name == t[k].name
    ensures forall k :: 0 <= k < |t| ==> r[k].data == if t[k].name == key then c else t[k].data
  {
    if t == [] then []
    else [if t[0].name == key then Entry(key, c) else t[0]] + Replace(t[1..], key, c)
  }

  /** Hands `cs` out in order to the columns named `key`, one each; the
      columns named `key` beyond the last of `cs` keep their data. */
  function Spread(t: Table, key: string, cs: seq<Column>): (r: Table)
    ensures |r| == |t|
    ensures forall k :: 0 <= k < |t| ==> r[k].name == t[k].name
    ensures forall k :: 0 <= k < |t| ==> r[k].data == t[k].data || (t[k].name == key && r[k].data in cs)
  {
    if t == [] then []
    else if t[0].name == key && cs != [] then
      var rest := Spread(t[1..], key, cs[1..]);
      assert forall d :: d in cs[1..] ==> d in cs;
      [Entry(key, cs[0])] + rest
    else [t[0]] + Spread(t[1..], key, cs)
  }

  /** Cell `j` of `c`, repeated down a column as long as `c`. */
  function Repeat(c: Column, j: nat): (r: Column)
    requires j < Length(c)
    ensures Length(r) == Length(c)
  {
    match c
    case Numeric(v) => Numeric(seq(|v|, _ => v[j]))
    case Textual(w) => Textual(seq(|w|, _ => w[j]))
  }

  /** The cells of `c` as one scalar per column. */
  function Repeats(c: Column): (r: seq<Column>)
    ensures |r| == Length(c)
    ensures forall j :: 0 <= j < |r| ==> r[j] == Repeat(c, j)
  {
    seq(Length(c), j requires 0 <= j < Length(c) => Repeat(c, j))
  }

  /** `df[key] = c` (pandas 2): appends a column when `key` is new.  When
      `key` names n > 1 columns and `c` has exactly n cells, pandas takes
      `c` for one value per column: the j-th column named `key` is filled
      with cell j.  Otherwise every column named `key` gets `c`. */
  function Assign(t: Table, key: string, c: Column): Table {
    var n := |Named(t, key)|;
    if n == 0 then t + [Entry(key, c)]
    else if 1 < n == Length(c) then Spread(t, key, Repeats(c))
    else Replace(t, key, c)
  }

  /** `df[key] = frame` (pandas 2) for a frame whose columns are `cs`: the
      columns named `key` get the frame's columns in order when there are
      as many of them; a new `key` takes a frame of one column; any other
      count raises a ValueError (None). */
  function AssignFrame(t: Table, key: string, cs: seq<Column>): Option<Table> {
    var n := |Named(t, key)|;
    if n == 0 then (if |cs| == 1 then Some(t + [Entry(key, cs[0])]) else None)
    else if n == |cs| then Some(Spread(t, key, cs))
    else None
  }

  /** `series / 10000` */
  function Scaled(v: seq<real>): (r: seq<real>) {
    seq(|v|, k requires 0 <= k < |v| => v[k] / Scale)
  }

  /** `column / 10000`; None when pandas raises a TypeError: a text cell
      cannot be divided, while a text column without cells divides to an
      empty column. */
  function Quotient(c: Column): (r: Option<Column>)
    ensures r.None? <==> c.Textual? && |c.cells| > 0
    ensures r.Some? ==> Length(r.value) == Length(c)
  {
    match c
    case Numeric(v) => Some(Numeric(Scaled(v)))
    case Textual(w) => if w == [] then Some(Textual([])) else None
  }

  /** `frame / 10000` for a frame whose columns are `cs`: None when any of
      them has a text cell. */
  function Quotients(cs: seq<Column>): (r: Option<seq<Column>>)
    ensures r.Some? <==> forall i :: 0 <= i < |cs| ==> Quotient(cs[i]).Some?
    ensures r.Some? ==> |r.value| == |cs| && forall i :: 0 <= i < |cs| ==> r.value[i] == Quotient(cs[i]).value
    decreases |cs|
  {
    if cs == [] then Some([])
    else
      match (Quotient(cs[0]), Quotients(cs[1..]))
      case (Some(q), Some(qs)) =>
        assert forall i :: 1 <= i < |cs| ==> cs[i] == cs[1..][i - 1];
        Some([q] + qs)
      case _ =>
        assert forall i :: 1 <= i < |cs| ==> cs[i] == cs[1..][i - 1];
        None
  }

  /** One pass of the derive loop for column `col`; None when pandas
      raises: dividing a column with text cells raises, and so does
      assigning the frame that a repeated `col` selects to a `<col>_만톤`
      naming a different number of columns. */
  function Derive(t: Table, col: string): Option<Table> {
    match Select(t, col)
    case Missing => Some(t)
    case Single(c) =>
      (match Quotient(c)
       case None => None
       case Some(q) => Some(Assign(t, col + Suffix, q)))
    case Several =>
      match Quotients(Named(t, col))
      case None => None
      case Some(qs) => AssignFrame(t, col + Suffix, qs)
  }

  /** The derive loop over `cols`, stopping at the first exception. */
  function Convert(t: Table, cols: seq<string>): Option<Table>
    decreases |cols|
  {
    if cols == [] then Some(t)
    else match Derive(t, cols[0])
      case None => None
      case Some(t') => Convert(t', cols[1..])
  }

  /** The body of the `try` after a successful `read_csv`. */
  function Prepare(raw: Table): Option<Table> {
    Convert(StripNames(raw), TargetCols)
  }

  /** One turn of the encoding loop: None when anything in the `try` raised. */
  function Attempt(read: Encoding -> Option<Table>, e: Encoding): Option<Table> {
    match read(e)
    case None => None
    case Some(raw) => Prepare(raw)
  }

  /** The outcome of each turn of the encoding loop, in loop order. */
  function Outcomes(read: Encoding -> Option<Table>): (os: seq<Option<Table>>)
    ensures |os| == |Encodings|
  {
    seq(|Encodings|, k requires 0 <= k < |Encodings| => Attempt(read, Encodings[k]))
  }

  /** The first outcome that is a table. */
  function FirstSome(os: seq<Option<Table>>): Option<Table> {
    if os == [] then None
    else if os[0].Some? then os[0]
    else FirstSome(os[1..])
  }

  /** What `load_data` returns: a table, or None for "no data". */
  function Load(read: Encoding -> Option<Table>): Option<Table> {
    FirstSome(Outcomes(read))
  }

  /** A pandas data frame, reduced to what `load_data` does with it. */
  class DataFrame {
    var columns: Table

    constructor (t: Table)
      ensures columns == t
    {
      columns := t;
    }

    /** `df.columns = names` (pandas demands one name per column). */
    method SetNames(names: seq<string>)
      requires |names| == |columns|
      modifies this
      ensures columns == Renamed(old(columns), names)
    {
      columns := Renamed(columns, names);
    }

    /** `df[key] = c` */
    method SetItem(key: string, c: Column)
      modifies this
      ensures columns == Assign(old(columns), key, c)
    {
      columns := Assign(columns, key, c);
    }

    /** `df[key] = frame`: false, leaving the frame as it was, when pandas
        raises. */
    method SetFrame(key: string, cs: seq<Column>) returns (ok: bool)
      modifies this
      ensures ok <==> AssignFrame(old(columns), key, cs).Some?
      ensures columns == if ok then AssignFrame(old(columns), key, cs).value else old(columns)
    {
      var r := AssignFrame(columns, key, cs);
      if r.None? {
        return false;
      }
      columns := r.value;
      return true;
    }
  }

  /** The derive loop of `load_data` on `df`: false when it raised, in
      which case the source abandons this frame. */
  method AddDerivedColumns(df: DataFrame) returns (ok: bool)
    modifies df
    ensures ok <==> Convert(old(df.columns), TargetCols).Some?
    ensures ok ==> Convert(old(df.columns), TargetCols) == Some(df.columns)
  {
    for j := 0 to |TargetCols|
      invariant Convert(df.columns, TargetCols[j..]) == Convert(old(df.columns), TargetCols)
    {
      var col := TargetCols[j];
      ConvertStep(df.columns, TargetCols, j);
      NamedNonEmpty(df.columns, col);
      if col in Names(df.columns) {
        var sources := Named(df.columns, col);
        if |sources| == 1 {
          var q := Quotient(sources[0]);
          if q.None? {
            return false;
          }
          df.SetItem(col + Suffix, q.value);
        } else {
          // a repeated name: `df[col]` is a frame
          var qs := Quotients(sources);
          if qs.None? {
            return false;
          }
          var ok := df.SetFrame(col + Suffix, qs.value);
          if !ok {
            return false;
          }
        }
      }
    }
    return true;
  }

  /** `load_data`: returns a fresh frame holding Load(read), or null when
      every encoding attempt failed. */
  method LoadData(read: Encoding -> Option<Table>) returns (df: DataFrame?)
    ensures df == null <==> Load(read) == None
    ensures df != null ==> fresh(df) && Load(read) == Some(df.columns)
  {
    for i := 0 to |Encodings|
      invariant FirstSome(Outcomes(read)[i..]) == Load(read)
    {
      var enc := Encodings[i];
      ghost var os := Outcomes(read);
      assert os[i..][0] == Attempt(read, enc) && os[i..][1..] == os[i + 1..];
      var parsed := read(enc);
      if parsed.None? {
        continue;
      }
      df := new DataFrame(parsed.value);
      df.SetNames(StripAll(Names(df.columns)));
      var ok := AddDerivedColumns(df);
      if !ok {
        // the `except: continue` of the source: try the next encoding
        continue;
      }
      return;
    }
    df := null;
  }

  /** `st.cache_data` on `load_data`: results kept per path.  `read(path)`
      stands for the file at `path`, which does not change while the
      process runs. */
  class LoadCache {
    const read: string -> Encoding -> Option<Table>
    var entries: map<string, Option<Table>>

    /** Every stored result is what loading that path gives. */
    ghost predicate Valid()
      reads this
    {
      forall p :: p in entries ==> entries[p] == Load(read(p))
    }

    constructor (read: string -> Encoding -> Option<Table>)
      ensures Valid() && this.read == read && entries == map[]
    {
      this.read := read;
      entries := map[];
    }

    /** `load_data(path)` through the cache: a hit hands out a copy of the
        stored result without loading; a miss loads and stores. */
    method Get(path: string) returns (df: DataFrame?)
      requires Valid()
      modifies this
      ensures Valid()
      ensures entries == old(entries)[path := Load(read(path))]
      ensures path in old(entries) ==> entries == old(entries)
      ensures df == null <==> Load(read(path)) == None
      ensures df != null ==> fresh(df) && Load(read(path)) == Some(df.columns)
    {
      if path in entries {
        df := Hit(path);
      } else {
        df := Miss(path);
      }
    }

    /** A cache hit: hand out a copy of the stored result. */
    method Hit(path: string) returns (df: DataFrame?)
      requires Valid() && path in entries
      ensures entries == entries[path := Load(read(path))]
      ensures df == null <==> Load(read(path)) == None
      ensures df != null ==> fresh(df) && Load(read(path)) == Some(df.columns)
    {
      var stored := entries[path];
      assert entries == entries[path := stored];
      df := FrameOf(stored);
    }

    /** A cache miss: load the file and store the result. */
    method Miss(path: string) returns (df: DataFrame?)
      requires Valid() && path !in entries
      modifies this
      ensures Valid()
      ensures entries == old(entries)[path := Load(read(path))]
      ensures df == null <==> Load(read(path)) == None
      ensures df != null ==> fresh(df) && Load(read(path)) == Some(df.columns)
    {
      df := LoadData(read(path));
      entries := entries[path := if df == null then None else Some(df.columns)];
    }
  }

  /** A fresh frame holding a stored result, or null for "no data". */
  method FrameOf(r: Option<Table>) returns (df: DataFrame?)
    ensures df == null <==> r == None
    ensures df != null ==> fresh(df) && r == Some(df.columns)
  {
    match r
    case None =>
      df := null;
    case Some(t) =>
      df := new DataFrame(t);
  }

  // ---------------------------------------------------------------------
  // Facts about tables

  lemma ConvertStep(t: Table, cols: seq<string>, j: nat)
    requires j < |cols|
    ensures Convert(t, cols[j..]) == match Derive(t, cols[j])
      case None => None
      case Some(t') => Convert(t', cols[j + 1..])
  {
    assert cols[j..][0] == cols[j] && cols[j..][1..] == cols[j + 1..];
  }

  lemma {:induction false} NamedNonEmpty(t: Table, key: string)
    ensures |Named(t, key)| > 0 <==> key in Names(t)
  {
    if t != [] {
      NamedNonEmpty(t[1..], key);
      assert Names(t) == [t[0].name] + Names(t[1..]);
    }
  }

  lemma {:induction false} NamedAppend(t: Table, e: Entry, key: string)
    ensures Named(t + [e], key) == Named(t, key) + (if e.name == key then [e.data] else [])
  {
    var last: seq<Column> := if e.name == key then [e.data] else [];
    if t == [] {
      assert [e][1..] == [];
      assert Named([e], key) == last + Named([], key);
    } else {
      var head: seq<Column> := if t[0].name == key then [t[0].data] else [];
      assert (t + [e])[0] == t[0] && (t + [e])[1..] == t[1..] + [e];
      NamedAppend(t[1..], e, key);
      assert Named(t + [e], key) == head + (Named(t[1..], key) + last);
      assert head + (Named(t[1..], key) + last) == (head + Named(t[1..], key)) + last;
    }
  }

  lemma {:induction false} NamedReplace(t: Table, key: string, c: Column, x: string)
    ensures x != key ==> Named(Replace(t, key, c), x) == Named(t, x)
    ensures x == key ==> |Named(Replace(t, key, c), x)| == |Named(t, x)|
    ensures x == key ==> forall k :: 0 <= k < |Named(Replace(t, key, c), x)| ==> Named(Replace(t, key, c), x)[k] == c
  {
    if t != [] {
      NamedReplace(t[1..], key, c, x);
      assert Replace(t, key, c)[1..] == Replace(t[1..], key, c);
    }
  }

  lemma {:induction false} NamedSpread(t: Table, key: string, cs: seq<Column>, x: string)
    requires |cs| == |Named(t, key)|
    ensures x != key ==> Named(Spread(t, key, cs), x) == Named(t, x)
    ensures x == key ==> Named(Spread(t, key, cs), x) == cs
  {
    if t != [] {
      if t[0].name == key {
        NamedSpread(t[1..], key, cs[1..], x);
        assert Spread(t, key, cs)[1..] == Spread(t[1..], key, cs[1..]);
        if x == key {
          assert cs == [cs[0]] + cs[1..];
        }
      } else {
        NamedSpread(t[1..], key, cs, x);
        assert Spread(t, key, cs)[1..] == Spread(t[1..], key, cs);
      }
    }
  }

  /** After `df[key] = c`, `df[x]` is unchanged for every other name; `key`
      names one new column when it named none, and as many as before
      otherwise; each of them holds `c`, except that n > 1 columns named
      `key` and n cells in `c` give the j-th column cell j throughout. */
  lemma NamedAssign(t: Table, key: string, c: Column, x: string)
    ensures x != key ==> Named(Assign(t, key, c), x) == Named(t, x)
    ensures x == key ==> |Named(Assign(t, key, c), x)| == if |Named(t, x)| == 0 then 1 else |Named(t, x)|
    ensures x == key ==> forall k :: 0 <= k < |Named(Assign(t, key, c), x)| ==>
      Named(Assign(t, key, c), x)[k] == if 1 < |Named(t, x)| == Length(c) then Repeat(c, k) else c
  {
    var n := |Named(t, key)|;
    if n == 0 {
      NamedAppend(t, Entry(key, c), x);
    } else if 1 < n == Length(c) {
      NamedSpread(t, key, Repeats(c), x);
    } else {
      NamedReplace(t, key, c, x);
    }
  }

  /** After `df[key] = frame` succeeds, `df[x]` is unchanged for every other
      name, and the columns named `key` are the frame's columns, in order;
      the frame had one column for a new `key` and as many as `key` named
      otherwise. */
  lemma NamedAssignFrame(t: Table, key: string, cs: seq<Column>, x: string)
    requires AssignFrame(t, key, cs).Some?
    ensures |cs| == if |Named(t, key)| == 0 then 1 else |Named(t, key)|
    ensures x != key ==> Named(AssignFrame(t, key, cs).value, x) == Named(t, x)
    ensures x == key ==> Named(AssignFrame(t, key, cs).value, x) == cs
  {
    if |Named(t, key)| == 0 {
      NamedAppend(t, Entry(key, cs[0]), x);
      assert cs == [cs[0]];
    } else {
      NamedSpread(t, key, cs, x);
    }
  }
}

/**
 * What `load_data` promises: the ordered encoding fallback, trimmed
 * headers, derived columns equal to their source divided by 10,000,
 * original columns and the row count untouched.
 */
module LoaderProperties {
  import opened Wrappers
  import opened Text
  import opened Loader

  // ---------------------------------------------------------------------
  // The encoding fallback

  /** The first table among the outcomes is the one at the first
      position that has one. */
  lemma {:induction false} FirstSomeAt(os: seq<Option<Table>>, i: nat)
    requires i < |os| && os[i].Some?
    requires forall j :: 0 <= j < i ==> os[j] == None
    ensures FirstSome(os) == os[i]
  {
    if i > 0 {
      assert forall j :: 0 <= j < i - 1 ==> os[1..][j] == os[j + 1];
      FirstSomeAt(os[1..], i - 1);
    }
  }

  /** A table that FirstSome returns sits at a position with only failures
      before it. */
  lemma {:induction false} FirstSomeFound(os: seq<Option<Table>>) returns (i: nat)
    requires FirstSome(os).Some?
    ensures i < |os| && os[i] == FirstSome(os)
    ensures forall j :: 0 <= j < i ==> os[j] == None
  {
    if os[0].Some? {
      i := 0;
    } else {
      var i' := FirstSomeFound(os[1..]);
      i := i' + 1;
      assert os[i] == os[1..][i'];
      assert forall j :: 1 <= j < i ==> os[j] == os[1..][j - 1];
    }
  }

  lemma {:induction false} FirstSomeNone(os: seq<Option<Table>>)
    ensures FirstSome(os) == None <==> forall j :: 0 <= j < |os| ==> os[j] == None
  {
    if os != [] {
      FirstSomeNone(os[1..]);
      assert forall j :: 1 <= j < |os| ==> os[j] == os[1..][j - 1];
    }
  }

  /** FirstSome picks `t` exactly when `t` is at a position with only
      failures before it. */
  lemma FirstSomeIff(os: seq<Option<Table>>, t: Table)
    ensures FirstSome(os) == Some(t) <==>
      exists i :: 0 <= i < |os| && os[i] == Some(t) && forall j :: 0 <= j < i ==> os[j] == None
  {
    if FirstSome(os) == Some(t) {
      var i := FirstSomeFound(os);
    }
    forall i | 0 <= i < |os| && os[i] == Some(t) && forall j :: 0 <= j < i ==> os[j] == None
      ensures FirstSome(os) == Some(t)
    {
      FirstSomeAt(os, i);
    }
  }

  /** `load_data` returns the table of the first encoding among
      utf-8-sig, cp949, euc-kr (in that order) whose attempt succeeds. */
  lemma LoadIsFirstSuccess(read: Encoding -> Option<Table>, t: Table)
    ensures Load(read) == Some(t) <==>
      exists i :: 0 <= i < |Encodings| && Attempt(read, Encodings[i]) == Some(t) &&
        forall j :: 0 <= j < i ==> Attempt(read, Encodings[j]) == None
  {
    var os := Outcomes(read);
    FirstSomeIff(os, t);
    assert forall k :: 0 <= k < |Encodings| ==> os[k] == Attempt(read, Encodings[k]);
  }

  /** The "no data" sentinel comes back exactly when all three attempts fail. */
  lemma LoadNoneIffAllFail(read: Encoding -> Option<Table>)
    ensures Load(read) == None <==>
      Attempt(read, Utf8Sig) == None && Attempt(read, Cp949) == None && Attempt(read, EucKr) == None
  {
    var os := Outcomes(read);
    FirstSomeNoneOfThree(os);
    assert os[0] == Attempt(read, Utf8Sig) && os[1] == Attempt(read, Cp949) && os[2] == Attempt(read, EucKr);
  }

  lemma FirstSomeNoneOfThree(os: seq<Option<Table>>)
    requires |os| == 3
    ensures FirstSome(os) == None <==> os[0] == None && os[1] == None && os[2] == None
  {
    FirstSomeNone(os);
  }

  // ---------------------------------------------------------------------
  // The derive loop

  /** The name of each column's derived column, in order. */
  function DerivedNames(cols: seq<string>): (r: seq<string>)
    ensures |r| == |cols|
  {
    seq(|cols|, k requires 0 <= k < |cols| => cols[k] + Suffix)
  }

  predicate EndsWithSuffix(c: string) {
    |c| >= |Suffix| && c[|c| - |Suffix|..] == Suffix
  }

  /** No column of `cols` is itself a derived name, and none is repeated. */
  predicate GoodTargets(cols: seq<string>) {
    && (forall k :: 0 <= k < |cols| ==> !EndsWithSuffix(cols[k]))
    && (forall a, b :: 0 <= a < b < |cols| ==> cols[a] != cols[b])
  }

  /** The source's list has both properties. */
  lemma TargetColsGood()
    ensures GoodTargets(TargetCols)
  {
    TargetColsUnsuffixed();
    TargetColsDistinct();
  }

  lemma TargetColsUnsuffixed()
    ensures forall k :: 0 <= k < |TargetCols| ==> !EndsWithSuffix(TargetCols[k])
  {
    forall k | 0 <= k < |TargetCols| ensures !EndsWithSuffix(TargetCols[k]) {
      LastCharNotSuffix(TargetCols[k]);
    }
  }

  lemma TargetColsDistinct()
    ensures forall a, b :: 0 <= a < b < |TargetCols| ==> TargetCols[a] != TargetCols[b]
  {
    var tags := [(2, '총'), (4, '소'), (4, '입'), (4, '출'), (6, '입'), (6, '출'), (6, '연')];
    assert forall k :: 0 <= k < |TargetCols| ==> Tag(TargetCols[k]) == tags[k];
    forall a, b | 0 <= a < b < |TargetCols| ensures TargetCols[a] != TargetCols[b] {
      assert tags[a] != tags[b];
    }
  }

  /** The length of a name and its third character (its first when it is
      shorter), which tell the volume columns apart. */
  function Tag(c: string): (nat, char) {
    (|c|, if |c| > 2 then c[2] else if |c| > 0 then c[0] else ' ')
  }

  lemma LastCharNotSuffix(c: string)
    requires |c| > 0 && c[|c| - 1] != Suffix[|Suffix| - 1]
    ensures !EndsWithSuffix(c)
  {
  }

  /** The pandas operations that raise in the derive step for column `c`
      of `s`: dividing a selected column that has a text cell, or assigning
      the frame a repeated `c` selects to a `c_만톤` that names a different
      number of columns. */
  predicate Breaks(s: Table, c: string) {
    var cs := Named(s, c);
    || (exists i :: 0 <= i < |cs| && cs[i].Textual? && |cs[i].cells| > 0)
    || (|cs| > 1 && |Named(s, c + Suffix)| != |cs|)
  }

  /** What the derive loop leaves for column `c`, compared with the frame `s`
      before it.  An absent column leaves `c_만톤` as it was.  A single
      column makes `c_만톤` hold its quotient (its values divided by
      10,000): one new column when `s` had none, as many as `s` had
      otherwise, and when that number n > 1 equals the row count the j-th
      of them holds cell j of the quotient throughout.  A repeated `c`
      makes the j-th `c_만톤` column hold the quotient of the j-th `c`
      column, there being as many of each. */
  ghost predicate DerivedFor(s: Table, t: Table, c: string) {
    var key := c + Suffix;
    match Select(s, c)
    case Missing => Named(t, key) == Named(s, key)
    case Single(col) =>
      && Quotient(col).Some?
      && |Named(t, key)| == (if |Named(s, key)| == 0 then 1 else |Named(s, key)|)
      && forall k :: 0 <= k < |Named(t, key)| ==>
           Named(t, key)[k] == if 1 < |Named(s, key)| == Length(col) then Repeat(Quotient(col).value, k) else Quotient(col).value
    case Several =>
      var cs := Named(s, c);
      && |Named(s, key)| == |cs|
      && |Named(t, key)| == |cs|
      && forall k :: 0 <= k < |cs| ==> Quotient(cs[k]).Some? && Named(t, key)[k] == Quotient(cs[k]).value
  }

  /** `t` keeps the columns of `s` in place under the same names; only
      columns with a derived name change or are appended. */
  ghost predicate Layout(s: Table, t: Table, cols: seq<string>) {
    && |s| <= |t|
    && (forall k :: 0 <= k < |s| ==> t[k].name == s[k].name)
    && (forall k :: 0 <= k < |s| && t[k].name !in DerivedNames(cols) ==> t[k].data == s[k].data)
    && (forall k :: |s| <= k < |t| ==> t[k].name in DerivedNames(cols))
  }

  /** `df[x]` is the same in `s` and `t` for every name that is not derived. */
  ghost predicate OthersKept(s: Table, t: Table, cols: seq<string>) {
    forall x :: x !in DerivedNames(cols) ==> Named(t, x) == Named(s, x)
  }

  ghost predicate AllDerived(s: Table, t: Table, cols: seq<string>) {
    forall k :: 0 <= k < |cols| ==> DerivedFor(s, t, cols[k])
  }

  /** `t` is `s` after the derive loop over `cols`. */
  ghost predicate Extends(s: Table, t: Table, cols: seq<string>) {
    Layout(s, t, cols) && OthersKept(s, t, cols) && AllDerived(s, t, cols)
  }

  lemma DeriveExtends(s: Table, c: string, s': Table)
    requires Derive(s, c) == Some(s')
    ensures Extends(s, s', [c])
  {
    assert DerivedNames([c]) == [c + Suffix];
    match Select(s, c)
    case Missing =>
    case Single(d) =>
      DeriveSingleExtends(s, c, d, s');
    case Several =>
      DeriveSeveralExtends(s, c, s');
  }

  lemma DeriveSingleExtends(s: Table, c: string, d: Column, s': Table)
    requires Select(s, c) == Single(d) && Quotient(d).Some?
    requires s' == Assign(s, c + Suffix, Quotient(d).value)
    ensures DerivedNames([c]) == [c + Suffix]
    ensures Layout(s, s', [c]) && OthersKept(s, s', [c]) && DerivedFor(s, s', c)
  {
    var key, col := c + Suffix, Quotient(d).value;
    assert DerivedNames([c]) == [key];
    forall x ensures x != key ==> Named(s', x) == Named(s, x) {
      NamedAssign(s, key, col, x);
    }
    NamedAssign(s, key, col, key);
  }

  lemma DeriveSeveralExtends(s: Table, c: string, s': Table)
    requires Select(s, c) == Several && Quotients(Named(s, c)).Some?
    requires AssignFrame(s, c + Suffix, Quotients(Named(s, c)).value) == Some(s')
    ensures DerivedNames([c]) == [c + Suffix]
    ensures Layout(s, s', [c]) && OthersKept(s, s', [c]) && DerivedFor(s, s', c)
  {
    var key, qs := c + Suffix, Quotients(Named(s, c)).value;
    assert DerivedNames([c]) == [key];
    forall x ensures x != key ==> Named(s', x) == Named(s, x) {
      NamedAssignFrame(s, key, qs, x);
    }
    NamedAssignFrame(s, key, qs, key);
  }

  /** A derive step raises exactly when Breaks says so. */
  lemma DeriveNoneIff(s: Table, c: string)
    ensures Derive(s, c) == None <==> Breaks(s, c)
  {
    var cs := Named(s, c);
    var key := c + Suffix;
    if |cs| == 1 {
      assert Select(s, c) == Single(cs[0]);
    } else if |cs| > 1 {
      match Quotients(cs)
      case None =>
        var i :| 0 <= i < |cs| && Quotient(cs[i]).None?;
        assert cs[i].Textual? && |cs[i].cells| > 0;
      case Some(qs) =>
        assert !exists i :: 0 <= i < |cs| && cs[i].Textual? && |cs[i].cells| > 0;
        assert |qs| == |cs|;
    }
  }

  /** What a good target list says about its head and its tail. */
  lemma SplitTargets(c: string, rest: seq<string>)
    requires GoodTargets([c] + rest)
    ensures GoodTargets(rest)
    ensures c + Suffix !in DerivedNames(rest)
    ensures forall k :: 0 <= k < |rest| ==> rest[k] != c && rest[k] !in DerivedNames([c])
    ensures forall k :: 0 <= k < |rest| ==> rest[k] + Suffix !in DerivedNames([c])
    ensures forall x :: x in DerivedNames([c] + rest) <==> x == c + Suffix || x in DerivedNames(rest)
  {
    var cols := [c] + rest;
    assert DerivedNames(cols) == DerivedNames([c]) + DerivedNames(rest);
    assert DerivedNames([c]) == [c + Suffix];
    forall k | 0 <= k < |rest| ensures !EndsWithSuffix(rest[k]) && rest[k] != c {
      assert cols[0] == c && cols[k + 1] == rest[k];
    }
    forall k | 0 <= k < |rest| ensures rest[k] !in DerivedNames([c]) && rest[k] + Suffix !in DerivedNames([c]) {
      NotDerivedNotIn(rest[k], [c]);
      SuffixCancel(c, rest[k]);
    }
    forall k | 0 <= k < |rest| ensures DerivedNames(rest)[k] != c + Suffix {
      SuffixCancel(c, rest[k]);
    }
    forall a, b | 0 <= a < b < |rest| ensures rest[a] != rest[b] {
      assert cols[a + 1] == rest[a] && cols[b + 1] == rest[b];
    }
  }

  lemma ComposeLayout(s: Table, s1: Table, t: Table, c: string, rest: seq<string>)
    requires forall x :: x in DerivedNames([c] + rest) <==> x == c + Suffix || x in DerivedNames(rest)
    requires DerivedNames([c]) == [c + Suffix]
    requires Layout(s, s1, [c]) && Layout(s1, t, rest)
    ensures Layout(s, t, [c] + rest)
  {
  }

  lemma ComposeOthersKept(s: Table, s1: Table, t: Table, c: string, rest: seq<string>)
    requires forall x :: x in DerivedNames([c] + rest) <==> x == c + Suffix || x in DerivedNames(rest)
    requires DerivedNames([c]) == [c + Suffix]
    requires OthersKept(s, s1, [c]) && OthersKept(s1, t, rest)
    ensures OthersKept(s, t, [c] + rest)
  {
  }

  lemma ComposeAllDerived(s: Table, s1: Table, t: Table, c: string, rest: seq<string>)
    requires c + Suffix !in DerivedNames(rest)
    requires forall k :: 0 <= k < |rest| ==> rest[k] !in DerivedNames([c])
    requires forall k :: 0 <= k < |rest| ==> rest[k] + Suffix !in DerivedNames([c])
    requires OthersKept(s, s1, [c]) && OthersKept(s1, t, rest)
    requires AllDerived(s, s1, [c]) && AllDerived(s1, t, rest)
    ensures AllDerived(s, t, [c] + rest)
  {
    HeadDerived(s, s1, t, c, rest);
    forall i | 0 <= i < |rest| ensures DerivedFor(s, t, rest[i]) {
      TailDerived(s, s1, t, c, rest, i);
    }
    AllDerivedCons(s, t, c, rest);
  }

  lemma AllDerivedCons(s: Table, t: Table, c: string, rest: seq<string>)
    requires DerivedFor(s, t, c)
    requires forall i :: 0 <= i < |rest| ==> DerivedFor(s, t, rest[i])
    ensures AllDerived(s, t, [c] + rest)
  {
    var cols := [c] + rest;
    forall k | 0 <= k < |cols| ensures DerivedFor(s, t, cols[k]) {
      if k > 0 {
        assert cols[k] == rest[k - 1];
      }
    }
  }

  /** The head column's derived column survives the later steps. */
  lemma HeadDerived(s: Table, s1: Table, t: Table, c: string, rest: seq<string>)
    requires c + Suffix !in DerivedNames(rest)
    requires OthersKept(s1, t, rest) && AllDerived(s, s1, [c])
    ensures DerivedFor(s, t, c)
  {
    assert [c][0] == c;
    assert DerivedFor(s, s1, c);
    assert Named(t, c + Suffix) == Named(s1, c + Suffix);
    DerivedForLater(s, s1, t, c);
  }

  /** A later column's derived column is unaffected by the head step. */
  lemma TailDerived(s: Table, s1: Table, t: Table, c: string, rest: seq<string>, i: nat)
    requires i < |rest|
    requires rest[i] !in DerivedNames([c]) && rest[i] + Suffix !in DerivedNames([c])
    requires OthersKept(s, s1, [c]) && AllDerived(s1, t, rest)
    ensures DerivedFor(s, t, rest[i])
  {
    var d := rest[i];
    assert DerivedFor(s1, t, d);
    assert Named(s1, d) == Named(s, d);
    assert Named(s1, d + Suffix) == Named(s, d + Suffix);
    DerivedForEarlier(s, s1, t, d);
  }

  /** A later step that leaves `c_만톤` alone keeps DerivedFor for `c`. */
  lemma DerivedForLater(s: Table, s1: Table, t: Table, c: string)
    requires DerivedFor(s, s1, c) && Named(t, c + Suffix) == Named(s1, c + Suffix)
    ensures DerivedFor(s, t, c)
  {
  }

  /** An earlier step that leaves `d` and `d_만톤` alone keeps DerivedFor
      for `d`. */
  lemma DerivedForEarlier(s: Table, s1: Table, t: Table, d: string)
    requires DerivedFor(s1, t, d)
    requires Named(s1, d) == Named(s, d) && Named(s1, d + Suffix) == Named(s, d + Suffix)
    ensures DerivedFor(s, t, d)
  {
    assert Select(s1, d) == Select(s, d);
  }

  lemma ComposeExtends(s: Table, s1: Table, t: Table, c: string, rest: seq<string>)
    requires GoodTargets([c] + rest)
    requires Extends(s, s1, [c]) && Extends(s1, t, rest)
    ensures Extends(s, t, [c] + rest)
  {
    SplitTargets(c, rest);
    assert DerivedNames([c]) == [c + Suffix];
    ComposeLayout(s, s1, t, c, rest);
    ComposeOthersKept(s, s1, t, c, rest);
    ComposeAllDerived(s, s1, t, c, rest);
  }

  lemma SuffixCancel(a: string, b: string)
    ensures a + Suffix == b + Suffix <==> a == b
  {
    if a + Suffix == b + Suffix {
      assert a == (a + Suffix)[..|a|];
      assert b == (b + Suffix)[..|b|];
    }
  }

  lemma NotDerivedNotIn(x: string, cols: seq<string>)
    requires !EndsWithSuffix(x)
    ensures x !in DerivedNames(cols)
  {
    forall k | 0 <= k < |cols| ensures DerivedNames(cols)[k] != x {
      var d := cols[k] + Suffix;
      assert d[|d| - |Suffix|..] == Suffix;
    }
  }

  /** The derive loop, when it does not raise, relates its input and output
      as Extends says. */
  lemma {:induction false} ConvertExtends(s: Table, cols: seq<string>, t: Table)
    requires GoodTargets(cols)
    requires Convert(s, cols) == Some(t)
    ensures Extends(s, t, cols)
    decreases |cols|
  {
    if cols == [] {
    } else {
      var s1 := Derive(s, cols[0]).value;
      DeriveExtends(s, cols[0], s1);
      assert cols == [cols[0]] + cols[1..];
      ConvertExtends(s1, cols[1..], t);
      ComposeExtends(s, s1, t, cols[0], cols[1..]);
    }
  }

  /** The derive loop raises exactly when Breaks holds for some target
      column: a text cell in it, or a repeat count that `<col>_만톤` does
      not match. */
  lemma {:induction false} ConvertNoneIff(s: Table, cols: seq<string>)
    requires GoodTargets(cols)
    ensures Convert(s, cols) == None <==> exists k :: 0 <= k < |cols| && Breaks(s, cols[k])
    decreases |cols|
  {
    if cols != [] {
      var rest := cols[1..];
      assert GoodTargets(rest) by {
        forall k | 0 <= k < |rest| ensures cols[k + 1] == rest[k] { }
      }
      DeriveNoneIff(s, cols[0]);
      var d := Derive(s, cols[0]);
      if d.Some? {
        ConvertNoneIff(d.value, rest);
        ConvertNoneIffStep(s, cols, d.value);
      }
    }
  }

  /** The inductive step of ConvertNoneIff, after a derive step that did
      not raise. */
  lemma ConvertNoneIffStep(s: Table, cols: seq<string>, s1: Table)
    requires GoodTargets(cols) && |cols| > 0
    requires Derive(s, cols[0]) == Some(s1)
    requires Convert(s1, cols[1..]) == None <==> exists k :: 0 <= k < |cols[1..]| && Breaks(s1, cols[1..][k])
    ensures Convert(s, cols) == None <==> exists k :: 0 <= k < |cols| && Breaks(s, cols[k])
  {
    var rest := cols[1..];
    DeriveExtends(s, cols[0], s1);
    DeriveNoneIff(s, cols[0]);
    assert cols == [cols[0]] + rest;
    BreaksKept(s, s1, cols[0], rest);
    BreaksShift(s, cols);
  }

  /** A derive step for `c` leaves Breaks unchanged for the later columns. */
  lemma BreaksKept(s: Table, s1: Table, c: string, rest: seq<string>)
    requires GoodTargets([c] + rest)
    requires OthersKept(s, s1, [c])
    ensures forall k :: 0 <= k < |rest| ==> Breaks(s1, rest[k]) == Breaks(s, rest[k])
  {
    SplitTargets(c, rest);
    forall k | 0 <= k < |rest| ensures Breaks(s1, rest[k]) == Breaks(s, rest[k]) {
      NotDerivedNotIn(rest[k], [c]);
      assert Named(s1, rest[k]) == Named(s, rest[k]);
      assert Named(s1, rest[k] + Suffix) == Named(s, rest[k] + Suffix);
    }
  }

  lemma BreaksShift(s: Table, cols: seq<string>)
    requires |cols| > 0 && !Breaks(s, cols[0])
    ensures (exists k :: 0 <= k < |cols| && Breaks(s, cols[k])) <==>
            (exists k :: 0 <= k < |cols[1..]| && Breaks(s, cols[1..][k]))
  {
    var rest := cols[1..];
    forall k | 0 <= k < |rest| ensures cols[k + 1] == rest[k] { }
    forall k | 0 <= k < |cols| && Breaks(s, cols[k]) ensures k > 0 && Breaks(s, rest[k - 1]) { }
  }

  // ---------------------------------------------------------------------
  // The body of the `try`, after a successful parse

  lemma StripNamesShape(raw: Table)
    ensures |StripNames(raw)| == |raw|
    ensures forall k :: 0 <= k < |raw| ==> StripNames(raw)[k] == Entry(Strip(raw[k].name), raw[k].data)
  {
  }

  /** The derived names are free of surrounding whitespace. */
  lemma DerivedNamesTrimmed()
    ensures forall k :: 0 <= k < |TargetCols| ==> IsTrimmed(DerivedNames(TargetCols)[k])
  {
  }

  /** Column names of a prepared table: the stripped headers in their
      original places, then only derived names; none of them has leading or
      trailing whitespace. */
  lemma PreparedNames(raw: Table, t: Table)
    requires Prepare(raw) == Some(t)
    ensures |raw| <= |t|
    ensures forall k :: 0 <= k < |raw| ==> t[k].name == Strip(raw[k].name)
    ensures forall k :: |raw| <= k < |t| ==> t[k].name in DerivedNames(TargetCols)
    ensures forall k :: 0 <= k < |t| ==> IsTrimmed(t[k].name)
  {
    TargetColsGood();
    ConvertExtends(StripNames(raw), TargetCols, t);
    StripNamesShape(raw);
    DerivedNamesTrimmed();
    forall k | 0 <= k < |t| ensures IsTrimmed(t[k].name) {
      if k < |raw| {
        assert IsStripOf(t[k].name, raw[k].name);
      } else {
        var j :| 0 <= j < |TargetCols| && DerivedNames(TargetCols)[j] == t[k].name;
      }
    }
  }

  lemma ConvertKeepsOriginals(raw: Table, cols: seq<string>, t: Table)
    requires GoodTargets(cols)
    requires Convert(StripNames(raw), cols) == Some(t)
    ensures |raw| <= |t|
    ensures forall k :: 0 <= k < |raw| && t[k].name !in DerivedNames(cols) ==> t[k].data == raw[k].data
    ensures forall x :: x !in DerivedNames(cols) ==> Named(t, x) == Named(StripNames(raw), x)
  {
    ConvertExtends(StripNames(raw), cols, t);
    StripNamesShape(raw);
  }

  /** Columns whose name is not a derived name keep their cells, and so
      does `df[x]` for every such name. */
  lemma PreparedKeepsOriginals(raw: Table, t: Table)
    requires Prepare(raw) == Some(t)
    ensures |raw| <= |t|
    ensures forall k :: 0 <= k < |raw| && t[k].name !in DerivedNames(TargetCols) ==> t[k].data == raw[k].data
    ensures forall x :: x !in DerivedNames(TargetCols) ==> Named(t, x) == Named(StripNames(raw), x)
  {
    TargetColsGood();
    ConvertKeepsOriginals(raw, TargetCols, t);
  }

  /** For each volume column present after stripping, the columns named
      `<col>_만톤` hold its cells divided by 10,000, as DerivedFor details;
      an absent volume column leaves `<col>_만톤` as the file had it. */
  lemma PreparedDerived(raw: Table, t: Table)
    requires Prepare(raw) == Some(t)
    ensures forall k :: 0 <= k < |TargetCols| ==> DerivedFor(StripNames(raw), t, TargetCols[k])
  {
    TargetColsGood();
    ConvertExtends(StripNames(raw), TargetCols, t);
  }

  /** The `try` fails after a successful parse exactly when some stripped
      volume column has a text cell, or appears n > 1 times while
      `<col>_만톤` does not appear exactly n times. */
  lemma PrepareNoneIff(raw: Table)
    ensures Prepare(raw) == None <==>
      exists k :: 0 <= k < |TargetCols| && Breaks(StripNames(raw), TargetCols[k])
  {
    TargetColsGood();
    ConvertNoneIff(StripNames(raw), TargetCols);
  }

  lemma {:induction false} NamedRectangular(t: Table, key: string, height: nat)
    requires Rectangular(t, height)
    ensures forall k :: 0 <= k < |Named(t, key)| ==> Length(Named(t, key)[k]) == height
  {
    if t != [] {
      NamedRectangular(t[1..], key, height);
    }
  }

  lemma {:induction false} ConvertRectangular(s: Table, cols: seq<string>, t: Table, height: nat)
    requires Rectangular(s, height)
    requires Convert(s, cols) == Some(t)
    ensures Rectangular(t, height)
    decreases |cols|
  {
    if cols != [] {
      var s1 := Derive(s, cols[0]).value;
      DeriveRectangular(s, cols[0], height);
      ConvertRectangular(s1, cols[1..], t, height);
    }
  }

  /** A derive step adds or fills columns only with cells of the same height. */
  lemma DeriveRectangular(s: Table, c: string, height: nat)
    requires Rectangular(s, height)
    requires Derive(s, c).Some?
    ensures Rectangular(Derive(s, c).value, height)
  {
    var cs := Named(s, c);
    NamedRectangular(s, c, height);
    if |cs| == 1 {
      var q := Quotient(cs[0]).value;
      assert Length(q) == height;
      assert forall j :: 0 <= j < |Repeats(q)| ==> Length(Repeats(q)[j]) == height;
    } else if |cs| > 1 {
      var qs := Quotients(cs).value;
      assert forall j :: 0 <= j < |qs| ==> Length(qs[j]) == height;
    }
  }

  /** Every column, old or derived, has as many cells as the parsed file
      has rows. */
  lemma PreparedRectangular(raw: Table, t: Table, height: nat)
    requires Rectangular(raw, height)
    requires Prepare(raw) == Some(t)
    ensures Rectangular(t, height)
  {
    StripNamesShape(raw);
    ConvertRectangular(StripNames(raw), TargetCols, t, height);
  }

  lemma {:induction false} NamedAllEmpty(t: Table, key: string)
    requires forall k :: 0 <= k < |t| ==> t[k].data == Textual([])
    ensures forall i :: 0 <= i < |Named(t, key)| ==> Named(t, key)[i] == Textual([])
  {
    if t != [] {
      NamedAllEmpty(t[1..], key);
    }
  }

  /** A header-only file (every column parsed with no cells, as text) whose
      volume columns are not repeated passes the `try`: dividing an empty
      column raises nothing. */
  lemma HeaderOnlyPrepares(raw: Table)
    requires forall k :: 0 <= k < |raw| ==> raw[k].data == Textual([])
    requires forall k :: 0 <= k < |TargetCols| ==> |Named(StripNames(raw), TargetCols[k])| <= 1
    ensures Prepare(raw).Some?
  {
    var t := StripNames(raw);
    StripNamesShape(raw);
    PrepareNoneIff(raw);
    forall k | 0 <= k < |TargetCols| ensures !Breaks(t, TargetCols[k]) {
      NamedAllEmpty(t, TargetCols[k]);
    }
  }

  /** The two-column header-only file `년도,총계` loads, under the first
      encoding. */
  lemma HeaderOnlyExample()
    ensures var raw := [Entry("년도", Textual([])), Entry("총계", Textual([]))];
            Load(e => Some(raw)) == Prepare(raw) && Prepare(raw).Some?
  {
    var raw := [Entry("년도", Textual([])), Entry("총계", Textual([]))];
    HeaderOnlyExamplePrepares(raw);
    LoadFirstEncoding(e => Some(raw));
  }

  lemma HeaderOnlyExamplePrepares(raw: Table)
    requires raw == [Entry("년도", Textual([])), Entry("총계", Textual([]))]
    ensures Prepare(raw).Some?
  {
    ExampleStripped(raw);
    forall x {
      NamedOfPair(raw[0], raw[1], x);
    }
    HeaderOnlyPrepares(raw);
  }

  lemma ExampleStripped(raw: Table)
    requires raw == [Entry("년도", Textual([])), Entry("총계", Textual([]))]
    ensures StripNames(raw) == raw
  {
    StripTrimmed("년도");
    StripTrimmed("총계");
    StripNamesShape(raw);
  }

  /** Two columns with different names: no name selects both. */
  lemma NamedOfPair(a: Entry, b: Entry, x: string)
    requires a.name != b.name
    ensures |Named([a, b], x)| <= 1
  {
    assert [a, b][1..] == [b];
    assert [b][1..] == [];
  }

  /** Two `총계` columns (say from the headers `총계` and ` 총계`) and two
      `총계_만톤` columns: the quotient frame is assigned column by column. */
  lemma RepeatedColumnExample(a: seq<real>, b: seq<real>, x: seq<real>, y: seq<real>)
    ensures var s := [Entry("총계", Numeric(a)), Entry("총계", Numeric(b)),
                      Entry("총계_만톤", Numeric(x)), Entry("총계_만톤", Numeric(y))];
            Derive(s, "총계") == Some([Entry("총계", Numeric(a)), Entry("총계", Numeric(b)),
                                      Entry("총계_만톤", Numeric(Scaled(a))), Entry("총계_만톤", Numeric(Scaled(b)))])
  {
    var s := [Entry("총계", Numeric(a)), Entry("총계", Numeric(b)),
              Entry("총계_만톤", Numeric(x)), Entry("총계_만톤", Numeric(y))];
    var qs := [Numeric(Scaled(a)), Numeric(Scaled(b))];
    TwoOfFour(s, "총계", "총계_만톤");
    var r := Quotients(Named(s, "총계"));
    assert r.Some? && |r.value| == 2;
    assert r.value[0] == qs[0] && r.value[1] == qs[1];
    assert r.value == qs;
    SpreadTwoOfFour(s, "총계_만톤", qs);
    assert "총계" + Suffix == "총계_만톤";
    assert Select(s, "총계") == Several;
    assert AssignFrame(s, "총계_만톤", qs) == Some(Spread(s, "총계_만톤", qs));
  }

  lemma TwoOfFour(s: Table, c: string, d: string)
    requires |s| == 4 && c != d
    requires s[0].name == c && s[1].name == c && s[2].name == d && s[3].name == d
    ensures Named(s, c) == [s[0].data, s[1].data] && Named(s, d) == [s[2].data, s[3].data]
  {
    assert s[1..][1..] == s[2..] && s[2..][1..] == s[3..] && s[3..][1..] == [];
    assert Named(s[3..], c) == [] && Named(s[3..], d) == [s[3].data];
    assert Named(s[2..], c) == [] && Named(s[2..], d) == [s[2].data, s[3].data];
    assert Named(s[1..], c) == [s[1].data] && Named(s[1..], d) == [s[2].data, s[3].data];
  }

  lemma SpreadTwoOfFour(s: Table, d: string, qs: seq<Column>)
    requires |s| == 4 && |qs| == 2
    requires s[0].name != d && s[1].name != d && s[2].name == d && s[3].name == d
    ensures Spread(s, d, qs) == [s[0], s[1], Entry(d, qs[0]), Entry(d, qs[1])]
  {
    assert s[1..][1..] == s[2..] && s[2..][1..] == s[3..] && s[3..][1..] == [];
    assert qs[1..][1..] == [];
    assert Spread(s[3..], d, qs[1..]) == [Entry(d, qs[1])];
    assert Spread(s[2..], d, qs) == [Entry(d, qs[0]), Entry(d, qs[1])];
    assert Spread(s[1..], d, qs) == [s[1], Entry(d, qs[0]), Entry(d, qs[1])];
  }

  /** One `총계` column over two rows, and two `총계_만톤` columns: pandas
      reads the quotient as one value per column, so each `총계_만톤`
      column is filled with one of its cells. */
  lemma RepeatedTargetExample(p: real, q: real, x: seq<real>, y: seq<real>)
    ensures var s := [Entry("총계", Numeric([p, q])), Entry("총계_만톤", Numeric(x)), Entry("총계_만톤", Numeric(y))];
            Derive(s, "총계") == Some([Entry("총계", Numeric([p, q])),
                                      Entry("총계_만톤", Numeric([p / Scale, p / Scale])),
                                      Entry("총계_만톤", Numeric([q / Scale, q / Scale]))])
  {
    var s := [Entry("총계", Numeric([p, q])), Entry("총계_만톤", Numeric(x)), Entry("총계_만톤", Numeric(y))];
    var c := Numeric([p / Scale, q / Scale]);
    OneOfThree(s, "총계", "총계_만톤");
    assert Select(s, "총계") == Single(s[0].data);
    assert Scaled([p, q]) == [p / Scale, q / Scale];
    assert Quotient(s[0].data) == Some(c);
    var r := Repeats(c);
    assert r[0].values == [p / Scale, p / Scale] && r[1].values == [q / Scale, q / Scale];
    assert r == [Numeric([p / Scale, p / Scale]), Numeric([q / Scale, q / Scale])];
    SpreadTwoOfThree(s, "총계_만톤", r);
    assert "총계" + Suffix == "총계_만톤";
    assert Assign(s, "총계_만톤", c) == Spread(s, "총계_만톤", r);
  }

  lemma OneOfThree(s: Table, c: string, d: string)
    requires |s| == 3 && c != d
    requires s[0].name == c && s[1].name == d && s[2].name == d
    ensures Named(s, c) == [s[0].data] && Named(s, d) == [s[1].data, s[2].data]
  {
    assert s[1..][1..] == s[2..] && s[2..][1..] == [];
    assert Named(s[2..], c) == [] && Named(s[2..], d) == [s[2].data];
    assert Named(s[1..], c) == [] && Named(s[1..], d) == [s[1].data, s[2].data];
  }

  lemma SpreadTwoOfThree(s: Table, d: string, qs: seq<Column>)
    requires |s| == 3 && |qs| == 2
    requires s[0].name != d && s[1].name == d && s[2].name == d
    ensures Spread(s, d, qs) == [s[0], Entry(d, qs[0]), Entry(d, qs[1])]
  {
    assert s[1..][1..] == s[2..] && s[2..][1..] == [];
    assert qs[1..][1..] == [];
    assert Spread(s[2..], d, qs[1..]) == [Entry(d, qs[1])];
    assert Spread(s[1..], d, qs) == [Entry(d, qs[0]), Entry(d, qs[1])];
  }

  /** When the utf-8-sig attempt succeeds, its table is the result. */
  lemma LoadFirstEncoding(read: Encoding -> Option<Table>)
    requires Attempt(read, Utf8Sig).Some?
    ensures Load(read) == Attempt(read, Utf8Sig)
  {
    FirstSomeAt(Outcomes(read), 0);
  }

  /** A table `load_data` returns came from a successful parse under one of
      the three encodings, after every earlier encoding failed. */
  lemma LoadedFromParse(read: Encoding -> Option<Table>, t: Table) returns (i: nat, raw: Table)
    requires Load(read) == Some(t)
    ensures i < |Encodings| && read(Encodings[i]) == Some(raw) && Prepare(raw) == Some(t)
    ensures forall j :: 0 <= j < i ==> Attempt(read, Encodings[j]) == None
  {
    LoadIsFirstSuccess(read, t);
    i :| 0 <= i < |Encodings| && Attempt(read, Encodings[i]) == Some(t) &&
      forall j :: 0 <= j < i ==> Attempt(read, Encodings[j]) == None;
    raw := read(Encodings[i]).value;
  }

  /** No column name `load_data` returns has leading or trailing whitespace. */
  lemma LoadedNamesTrimmed(read: Encoding -> Option<Table>, t: Table)
    requires Load(read) == Some(t)
    ensures forall k :: 0 <= k < |t| ==> IsTrimmed(t[k].name)
  {
    var i, raw := LoadedFromParse(read, t);
    PreparedNames(raw, t);
  }
}
