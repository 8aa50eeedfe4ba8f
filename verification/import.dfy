/**
 * The spreadsheet import: a header row followed by data rows of string
 * cells.  The headers are lower-cased and must include the five required
 * names; each data row is then classified (too few cells, missing
 * required values, unparseable date or time, or acceptable) and an
 * acceptable row either updates the stored training with the same
 * identity key or becomes a new training.  One flush ends the run.
 *
 * `Reconcile` is the specification of the row loop as a fold over a
 * prefix of the rows; `TrainingImportService.ImportTrainings` is the
 * loop itself, over the entity manager, proved to follow it.
 */
module TrainingImport {
  import opened Base
  import opened Calendar
  import opened TrainingEntity
  import opened Persistence

  /** The conversions the import borrows from the PHP runtime, taken as
      given functions: `md5`, `new \DateTime(...)` (None when it throws),
      the `(int)` cast and the `(float)` cast. */
  datatype Env = Env(
    md5: string -> string,
    parseDateTime: string -> Option<DateTime>,
    toInt: string -> int,
    toFloat: string -> Float)

  /** The statistics array a run returns. */
  datatype Stats = Stats(imported: nat, updated: nat, skipped: nat, errors: seq<string>)

  /** One sheet row; a cell the sheet leaves out reads as `null`. */
  type Row = seq<Cell>

  const RequiredHeaders: seq<string> := ["title", "date", "time", "slots", "price"]

  const NoDataMessage: string := "No data found in the specified range."

  /** Minutes, used when the sheet gives no duration. */
  const DefaultDuration: int := 60

  /** `strtolower` of one header cell; an absent cell reads as "". */
  function HeaderName(c: Cell): string {
    if c.Some? then Lower(c.value) else ""
  }

  /** `array_map('strtolower', $headers)`. */
  function LowerHeaders(hs: Row): seq<string> {
    seq(|hs|, i requires 0 <= i < |hs| => HeaderName(hs[i]))
  }

  /** `array_diff($requiredHeaders, $headersLower)`: the required names
      that are absent, in the order the required list gives them. */
  function MissingHeaders(required: seq<string>, headers: seq<string>): (r: seq<string>)
    ensures forall x :: x in r <==> x in required && x !in headers
    ensures |r| <= |required|
  {
    if required == [] then []
    else (if required[0] in headers then [] else [required[0]]) + MissingHeaders(required[1..], headers)
  }

  /** Position of the first occurrence of `x` in `s`. */
  function IndexOf(s: seq<string>, x: string): (k: nat)
    requires x in s
    ensures k < |s| && s[k] == x
  {
    if s[0] == x then 0 else 1 + IndexOf(s[1..], x)
  }

  /** Every element of `r` occurs in `s`, and in the same order. */
  ghost predicate InOrder(r: seq<string>, s: seq<string>) {
    (forall k :: 0 <= k < |r| ==> r[k] in s)
    && forall i, j :: 0 <= i < j < |r| ==> IndexOf(s, r[i]) < IndexOf(s, r[j])
  }

  /** The missing names keep the order of the required list. */
  lemma {:induction false} MissingHeadersInOrder(required: seq<string>, headers: seq<string>)
    requires NoDuplicates(required)
    ensures InOrder(MissingHeaders(required, headers), required)
  {
    if required != [] {
      var x, tail := required[0], required[1..];
      TailNoDuplicates(required);
      MissingHeadersInOrder(tail, headers);
      var rest := MissingHeaders(tail, headers);
      assert required == [x] + tail;
      if x in headers {
        assert MissingHeaders(required, headers) == rest;
        InOrderSkip(rest, x, tail);
      } else {
        assert MissingHeaders(required, headers) == [x] + rest;
        InOrderCons(x, rest, tail);
      }
    }
  }

  lemma IndexOfCons(x: string, s: seq<string>, y: string)
    requires y in s && y != x
    ensures IndexOf([x] + s, y) == 1 + IndexOf(s, y)
  {
    assert ([x] + s)[1..] == s;
  }

  lemma InOrderSkip(r: seq<string>, x: string, s: seq<string>)
    requires InOrder(r, s) && x !in s
    ensures InOrder(r, [x] + s)
  {
    var w := [x] + s;
    forall k | 0 <= k < |r| ensures r[k] in w && IndexOf(w, r[k]) == 1 + IndexOf(s, r[k]) {
      IndexOfCons(x, s, r[k]);
    }
  }

  lemma InOrderCons(x: string, r: seq<string>, s: seq<string>)
    requires InOrder(r, s) && x !in s
    ensures InOrder([x] + r, [x] + s)
  {
    var v, w := [x] + r, [x] + s;
    assert IndexOf(w, x) == 0;
    forall k | 0 <= k < |r| ensures r[k] in w && IndexOf(w, r[k]) == 1 + IndexOf(s, r[k]) {
      IndexOfCons(x, s, r[k]);
    }
    forall i, j | 0 <= i < j < |v| ensures IndexOf(w, v[i]) < IndexOf(w, v[j]) {
      assert v[j] == r[j - 1];
      if i > 0 {
        assert v[i] == r[i - 1];
      }
    }
  }

  function MissingHeadersMessage(missing: seq<string>): string {
    "Missing required headers: " + Join(missing, ", ")
  }

  /** The header-to-column map: every header is a key, mapped to the last
      column that carries it. */
  function ColumnMapOf(hs: seq<string>): (m: map<string, nat>)
    ensures forall h :: h in m <==> h in hs
    ensures forall h :: h in m ==> m[h] < |hs| && hs[m[h]] == h
    ensures forall h, j :: h in m && m[h] < j < |hs| ==> hs[j] != h
  {
    if hs == [] then map[]
    else
      var init := hs[..|hs| - 1];
      assert forall j :: 0 <= j < |init| ==> init[j] == hs[j];
      assert hs == init + [hs[|hs| - 1]];
      ColumnMapOf(init)[hs[|hs| - 1] := |hs| - 1]
  }

  /** Every required header has a column. */
  predicate HasRequired(cmap: map<string, nat>) {
    "title" in cmap && "date" in cmap && "time" in cmap && "slots" in cmap && "price" in cmap
  }

  /** When no required header is missing, the column map has them all. */
  lemma RequiredHeadersMapped(headers: seq<string>)
    requires MissingHeaders(RequiredHeaders, headers) == []
    ensures HasRequired(ColumnMapOf(headers))
  {
    assert "title" in RequiredHeaders && "date" in RequiredHeaders && "time" in RequiredHeaders;
    assert "slots" in RequiredHeaders && "price" in RequiredHeaders;
  }

  /** `$row[$index] ?? null`. */
  function CellAt(row: Row, index: nat): Cell {
    if index < |row| then row[index] else None
  }

  /** The cell under an optional header, or null when the sheet has no
      such column. */
  function OptionalCell(row: Row, cmap: map<string, nat>, header: string): Cell {
    if header in cmap then CellAt(row, cmap[header]) else None
  }

  /** PHP's `!$value` on a cell: null, "" and "0" are all false. */
  predicate Falsy(c: Cell) {
    c.None? || c.value == "" || c.value == "0"
  }

  /** `$value === null || $value === ''`. */
  predicate NullOrEmpty(c: Cell) {
    c.None? || c.value == ""
  }

  /** The names of the required values a row lacks, in the order title,
      date, time, slots, price. */
  function MissingFields(title: Cell, date: Cell, time: Cell, slots: Cell, price: Cell): (r: seq<string>)
    ensures r == [] <==> !Falsy(title) && !Falsy(date) && !Falsy(time) && !NullOrEmpty(slots) && !NullOrEmpty(price)
    ensures forall x :: x in r ==> x in RequiredHeaders
    ensures ("title" in r <==> Falsy(title)) && ("date" in r <==> Falsy(date)) && ("time" in r <==> Falsy(time))
    ensures ("slots" in r <==> NullOrEmpty(slots)) && ("price" in r <==> NullOrEmpty(price))
  {
    (if Falsy(title) then ["title"] else [])
    + (if Falsy(date) then ["date"] else [])
    + (if Falsy(time) then ["time"] else [])
    + (if NullOrEmpty(slots) then ["slots"] else [])
    + (if NullOrEmpty(price) then ["price"] else [])
  }

  /** The missing names are listed in the order of the required headers:
      title, date, time, slots, price. */
  lemma MissingFieldsInOrder(title: Cell, date: Cell, time: Cell, slots: Cell, price: Cell)
    ensures InOrder(MissingFields(title, date, time, slots, price), RequiredHeaders)
  {
    PickRequired(Falsy(title), Falsy(date), Falsy(time), NullOrEmpty(slots), NullOrEmpty(price));
  }

  /** Picking among the required headers by five flags keeps their order. */
  lemma PickRequired(a: bool, b: bool, c: bool, d: bool, e: bool)
    ensures InOrder((if a then ["title"] else []) + (if b then ["date"] else []) + (if c then ["time"] else [])
                    + (if d then ["slots"] else []) + (if e then ["price"] else []), RequiredHeaders)
  {
    RequiredHeadersDistinct();
    PickFive(RequiredHeaders, a, b, c, d, e);
  }

  /** Picking among five distinct names by five flags keeps their order. */
  lemma PickFive(names: seq<string>, a: bool, b: bool, c: bool, d: bool, e: bool)
    requires |names| == 5 && NoDuplicates(names)
    ensures InOrder((if a then [names[0]] else []) + (if b then [names[1]] else []) + (if c then [names[2]] else [])
                    + (if d then [names[3]] else []) + (if e then [names[4]] else []), names)
  {
    var picks := [a, b, c, d, e];
    PickedInOrder(names, picks);
    var n := names;
    assert Picked(n[4..], picks[4..]) == (if e then [n[4]] else []) by {
      assert n[4..][1..] == [] && picks[4..][1..] == [];
    }
    assert Picked(n[3..], picks[3..]) == (if d then [n[3]] else []) + Picked(n[4..], picks[4..]) by {
      assert n[3..][1..] == n[4..] && picks[3..][1..] == picks[4..];
    }
    assert Picked(n[2..], picks[2..]) == (if c then [n[2]] else []) + Picked(n[3..], picks[3..]) by {
      assert n[2..][1..] == n[3..] && picks[2..][1..] == picks[3..];
    }
    assert Picked(n[1..], picks[1..]) == (if b then [n[1]] else []) + Picked(n[2..], picks[2..]) by {
      assert n[1..][1..] == n[2..] && picks[1..][1..] == picks[2..];
    }
    var p1, p2, p3, p4, p5 := (if a then [n[0]] else []), (if b then [n[1]] else []),
                              (if c then [n[2]] else []), (if d then [n[3]] else []),
                              (if e then [n[4]] else []);
    assert Picked(n[3..], picks[3..]) == p4 + p5;
    assert Picked(n[2..], picks[2..]) == p3 + (p4 + p5);
    assert Picked(n[1..], picks[1..]) == p2 + (p3 + (p4 + p5));
    assert Picked(n, picks) == p1 + Picked(n[1..], picks[1..]);
    AppendAssoc(p3, p4, p5);
    AppendAssoc(p2, p3 + p4, p5);
    AppendAssoc(p1, p2 + (p3 + p4), p5);
    AppendAssoc(p2, p3, p4);
    AppendAssoc(p1, p2 + p3, p4);
    AppendAssoc(p1, p2, p3);
  }

  lemma AppendAssoc<T>(a: seq<T>, b: seq<T>, c: seq<T>)
    ensures a + (b + c) == (a + b) + c
  {
  }

  lemma RequiredHeadersDistinct()
    ensures NoDuplicates(RequiredHeaders)
  {
    var h := RequiredHeaders;
    assert h[0][0] == 't' && h[1][0] == 'd' && h[2][0] == 't' && h[3][0] == 's' && h[4][0] == 'p';
    assert |h[0]| == 5 && |h[2]| == 4;
  }

  /** The names whose pick is set, in the order of `names`. */
  function Picked(names: seq<string>, picks: seq<bool>): seq<string>
    requires |picks| == |names|
  {
    if names == [] then [] else (if picks[0] then [names[0]] else []) + Picked(names[1..], picks[1..])
  }

  /** Picking from a list without duplicates keeps its order. */
  lemma {:induction false} PickedInOrder(names: seq<string>, picks: seq<bool>)
    requires |picks| == |names| && NoDuplicates(names)
    ensures InOrder(Picked(names, picks), names)
  {
    if names != [] {
      TailNoDuplicates(names);
      PickedInOrder(names[1..], picks[1..]);
      InOrderPrepend(picks[0], names[0], Picked(names[1..], picks[1..]), names[1..]);
      assert [names[0]] + names[1..] == names;
    }
  }

  /** A name listed or left out in front of an ordered list keeps it
      ordered against the longer reference list. */
  lemma InOrderPrepend(listed: bool, x: string, r: seq<string>, s: seq<string>)
    requires InOrder(r, s) && x !in s
    ensures InOrder((if listed then [x] else []) + r, [x] + s)
  {
    if listed {
      InOrderCons(x, r, s);
    } else {
      assert [] + r == r;
      InOrderSkip(r, x, s);
    }
  }

  /** Why a data row is skipped. */
  datatype RowError =
    | InsufficientColumns(found: nat)
    | MissingData(fields: seq<string>)
    | InvalidDateTime(date: string, time: string)

  /** Every row error starts with this; data row `rowIndex` (counted from
      0 after the header) is sheet row `rowIndex + 2`. */
  function RowLabel(rowIndex: nat): string {
    "Skipped row " + NatToString(rowIndex + 2) + ": "
  }

  /** What is reported about a skipped row after its label. */
  function ErrorText(e: RowError): string {
    match e
    case InsufficientColumns(found) =>
      "Insufficient columns. Expected at least " + NatToString(|RequiredHeaders|)
      + " columns, found " + NatToString(found) + "."
    case MissingData(fields) =>
      "Missing required data for fields: " + Join(fields, ", ") + "."
    case InvalidDateTime(date, time) =>
      "Invalid date/time format for date '" + date + "' or time '" + time + "'."
  }

  /** The text reported for a skipped row. */
  function ErrorMessage(rowIndex: nat, e: RowError): (m: string)
    ensures RowLabel(rowIndex) <= m
  {
    RowLabel(rowIndex) + ErrorText(e)
  }

  /** Two labelled texts that are equal carry the same row label: the
      row number ends at the first ':'. */
  lemma RowLabelsDiffer(i: nat, x: string, j: nat, y: string)
    requires RowLabel(i) + x == RowLabel(j) + y
    ensures i == j
  {
    var p := "Skipped row ";
    var a, b := NatToString(i + 2), NatToString(j + 2);
    DropPrefix(p, a, ": ", x);
    DropPrefix(p, b, ": ", y);
    DigitsThenColon(a, ": " + x, b, ": " + y);
    NatToStringInjective(i + 2, j + 2);
  }

  lemma DropPrefix(p: string, a: string, c: string, x: string)
    ensures (p + a + c + x)[|p|..] == a + (c + x)
  {
    var s := p + a + c + x;
    assert forall k :: 0 <= k < |a| + |c| + |x| ==> s[|p|..][k] == (a + (c + x))[k];
  }

  /** A run of digits followed by ':' is determined by the text it starts:
      in both readings the first ':' sits right after the digits. */
  lemma DigitsThenColon(a: string, x: string, b: string, y: string)
    requires AllDigits(a) && AllDigits(b) && x != [] && y != [] && x[0] == ':' && y[0] == ':'
    requires a + x == b + y
    ensures a == b
  {
    var m := a + x;
    assert m[|a|] == ':' && forall k :: 0 <= k < |a| ==> IsDigit(m[k]);
    assert m[|b|] == ':' && forall k :: 0 <= k < |b| ==> IsDigit(m[k]);
    assert a == m[..|a|] && b == m[..|b|];
  }

  /** A row error message names its row, and no other: two messages that
      are equal come from the same row. */
  lemma ErrorMessageIdentifiesRow(i: nat, e: RowError, j: nat, f: RowError)
    ensures RowLabel(i) <= ErrorMessage(i, e)
    ensures ErrorMessage(i, e) == ErrorMessage(j, f) ==> i == j
  {
    if ErrorMessage(i, e) == ErrorMessage(j, f) {
      RowLabelsDiffer(i, ErrorText(e), j, ErrorText(f));
    }
  }

  /** The text whose md5 is the identity key: title, description, date,
      time, price, slots and duration, in that order; a missing
      description contributes nothing. */
  function KeyText(title: string, description: Option<string>, date: string, time: string,
                   price: string, slots: string, duration: string): (r: string)
    ensures var d := if description.Some? then description.value else "";
            |r| == |title| + |d| + |date| + |time| + |price| + |slots| + |duration|
    ensures r[..|title|] == title && r[|r| - |duration|..] == duration
  {
    title + (if description.Some? then description.value else "") + date + time + price + slots + duration
  }

  /** A missing description and an empty one give the same key text, as
      `?? ''` makes them. */
  lemma KeyTextMissingDescription(title: string, date: string, time: string,
                                  price: string, slots: string, duration: string)
    ensures KeyText(title, None, date, time, price, slots, duration)
         == KeyText(title, Some(""), date, time, price, slots, duration)
  {
    assert title + "" == title;
  }

  /** The cells a data row offers under each header the import reads. */
  datatype Fields = Fields(title: Cell, description: Cell, date: Cell, time: Cell,
                           slots: Cell, price: Cell, duration: Cell)

  function ReadFields(row: Row, cmap: map<string, nat>): Fields
    requires HasRequired(cmap)
  {
    Fields(CellAt(row, cmap["title"]), OptionalCell(row, cmap, "description"),
           CellAt(row, cmap["date"]), CellAt(row, cmap["time"]),
           CellAt(row, cmap["slots"]), CellAt(row, cmap["price"]),
           OptionalCell(row, cmap, "duration"))
  }

  /** Every required value is present. */
  predicate Filled(f: Fields) {
    !Falsy(f.title) && !Falsy(f.date) && !Falsy(f.time) && !NullOrEmpty(f.slots) && !NullOrEmpty(f.price)
  }

  /** The duration as hashed: the cell's text, or the default. */
  function DurationText(f: Fields): string {
    if f.duration.Some? then f.duration.value else NatToString(DefaultDuration)
  }

  /** The duration as stored: the cell cast to int, or the default. */
  function DurationValue(f: Fields, env: Env): int {
    if f.duration.Some? then env.toInt(f.duration.value) else DefaultDuration
  }

  /** What an acceptable row contributes. */
  datatype Candidate = Candidate(
    title: string,
    description: Option<string>,
    date: DateTime,
    time: DateTime,
    slots: string,
    price: string,
    duration: int,
    key: string)

  /** The outcome of the checks on one row. */
  datatype RowCheck = Fail(error: RowError) | Pass(candidate: Candidate)

  /** A data row's verdict, with its error already rendered for the
      statistics. */
  datatype Verdict = Reject(message: string) | Accept(candidate: Candidate)

  /** The checks on the values of a row with enough cells: required values
      first, then the date and time parse. */
  function CheckFields(f: Fields, env: Env): RowCheck {
    var missing := MissingFields(f.title, f.date, f.time, f.slots, f.price);
    if missing != [] then Fail(MissingData(missing))
    else
      var date, time := env.parseDateTime(f.date.value), env.parseDateTime(f.time.value);
      if date.None? || time.None? then Fail(InvalidDateTime(f.date.value, f.time.value))
      else
        var key := env.md5(KeyText(f.title.value, f.description, f.date.value, f.time.value,
                                   f.price.value, f.slots.value, DurationText(f)));
        Pass(Candidate(f.title.value, f.description, date.value, time.value,
                         f.slots.value, f.price.value, DurationValue(f, env), key))
  }

  /** The checks one data row goes through, in order. */
  function ClassifyRow(row: Row, cmap: map<string, nat>, env: Env): (r: RowCheck)
    requires HasRequired(cmap)
    ensures r.Pass? ==> |row| >= |RequiredHeaders| && Filled(ReadFields(row, cmap))
    ensures r.Fail? && r.error.InsufficientColumns? ==> r.error.found < |RequiredHeaders|
  {
    if |row| < |RequiredHeaders| then Fail(InsufficientColumns(|row|))
    else CheckFields(ReadFields(row, cmap), env)
  }

  /** A row is accepted exactly when it has at least five cells, every
      required value is present and both the date and the time parse; the
      candidate then carries the row's values, the parsed date and time,
      and the md5 of the identity text as its key.  A short row is
      reported with its cell count, a row lacking values with the names of
      all of them. */
  lemma ClassifyRowSpec(row: Row, cmap: map<string, nat>, env: Env)
    requires HasRequired(cmap)
    ensures var v, f := ClassifyRow(row, cmap, env), ReadFields(row, cmap);
            && (v.Pass? <==>
                  |row| >= |RequiredHeaders| && Filled(f)
                  && env.parseDateTime(f.date.value).Some? && env.parseDateTime(f.time.value).Some?)
            && (|row| < |RequiredHeaders| ==> v == Fail(InsufficientColumns(|row|)))
            && (|row| >= |RequiredHeaders| && !Filled(f) ==>
                  v == Fail(MissingData(MissingFields(f.title, f.date, f.time, f.slots, f.price))))
            && (|row| >= |RequiredHeaders| && Filled(f)
                && (env.parseDateTime(f.date.value).None? || env.parseDateTime(f.time.value).None?) ==>
                  v == Fail(InvalidDateTime(f.date.value, f.time.value)))
            && (v.Pass? ==>
                  && v.candidate.title == f.title.value && v.candidate.title != "0"
                  && v.candidate.description == f.description
                  && Some(v.candidate.date) == env.parseDateTime(f.date.value)
                  && Some(v.candidate.time) == env.parseDateTime(f.time.value)
                  && v.candidate.slots == f.slots.value && v.candidate.price == f.price.value
                  && v.candidate.duration == DurationValue(f, env)
                  && v.candidate.key == env.md5(KeyText(f.title.value, f.description, f.date.value,
                                                        f.time.value, f.price.value, f.slots.value,
                                                        DurationText(f))))
  {
  }

  /** Data row `rowIndex`'s verdict. */
  function Judge(row: Row, rowIndex: nat, cmap: map<string, nat>, env: Env): Verdict
    requires HasRequired(cmap)
  {
    match ClassifyRow(row, cmap, env)
    case Fail(e) => Reject(ErrorMessage(rowIndex, e))
    case Pass(c) => Accept(c)
  }

  /** `vs` holds the verdict of each data row, by position. */
  ghost predicate JudgedRows(data: seq<Row>, cmap: map<string, nat>, env: Env, vs: seq<Verdict>)
    requires HasRequired(cmap)
  {
    |vs| == |data| && forall i {:trigger data[i]} :: 0 <= i < |data| ==> vs[i] == Judge(data[i], i, cmap, env)
  }

  /** The verdicts of all data rows; none depends on the store. */
  function Verdicts(data: seq<Row>, cmap: map<string, nat>, env: Env): seq<Verdict>
    requires HasRequired(cmap)
  {
    seq(|data|, i requires 0 <= i < |data| => Judge(data[i], i, cmap, env))
  }

  /** The update branch: description, time, slots, available slots (reset
      to slots), price and duration are overwritten. */
  function Updated(d: TrainingData, c: Candidate, env: Env): TrainingData {
    d.(description := c.description, time := Some(c.time),
       slots := Some(env.toInt(c.slots)), slotsAvailable := Some(env.toInt(c.slots)),
       price := Some(env.toFloat(c.price)), duration := Some(c.duration))
  }

  /** The insert branch: a new training with every field from the row and
      the identity key as its googleSheetId. */
  function Inserted(c: Candidate, env: Env, now: Instant): TrainingData {
    Blank(now).(title := Some(c.title), description := c.description,
                date := Some(c.date), time := Some(c.time),
                slots := Some(env.toInt(c.slots)), slotsAvailable := Some(env.toInt(c.slots)),
                price := Some(env.toFloat(c.price)), duration := Some(c.duration),
                googleSheetId := Some(c.key))
  }

  /** The run so far: the statistics, the stored rows as the lookup sees
      them, and the rows waiting for the flush. */
  datatype Ledger = Ledger(stats: Stats, rows: seq<TrainingData>, pending: seq<TrainingData>)

  /** Data row `rowIndex`'s effect on the run. */
  function Step(l: Ledger, rowIndex: nat, v: Verdict, env: Env, now: Instant): (r: Ledger)
    ensures |r.rows| == |l.rows| && |l.pending| <= |r.pending| <= |l.pending| + 1
  {
    match v
    case Reject(message) =>
      l.(stats := l.stats.(skipped := l.stats.skipped + 1, errors := l.stats.errors + [message]))
    case Accept(c) =>
      match KeyIndex(l.rows, c.key)
      case Some(i) =>
        l.(rows := l.rows[i := Updated(l.rows[i], c, env)], stats := l.stats.(updated := l.stats.updated + 1))
      case None =>
        l.(pending := l.pending + [Inserted(c, env, now)], stats := l.stats.(imported := l.stats.imported + 1))
  }

  /** The row loop over the first `k` data rows, whose verdicts are `vs`,
      from ledger `l0`. */
  function Reconcile(vs: seq<Verdict>, k: nat, env: Env, now: Instant, l0: Ledger): (l: Ledger)
    requires k <= |vs|
    ensures |l.rows| == |l0.rows| && |l0.pending| <= |l.pending| <= |l0.pending| + k
  {
    if k == 0 then l0
    else Step(Reconcile(vs, k - 1, env, now, l0), k - 1, vs[k - 1], env, now)
  }

  /** What a run returns and leaves behind: the statistics, whether it got
      as far as the flush, and the stored and scheduled rows before it. */
  datatype Outcome = Outcome(stats: Stats, flushed: bool, rows: seq<TrainingData>, pending: seq<TrainingData>)

  function Headers(values: seq<Row>): seq<string>
    requires values != []
  {
    LowerHeaders(values[0])
  }

  /** The verdicts of a sheet whose headers passed the checks. */
  function SheetVerdicts(values: seq<Row>, env: Env): (vs: seq<Verdict>)
    requires values != [] && MissingHeaders(RequiredHeaders, Headers(values)) == []
    ensures |vs| == |values| - 1
  {
    RequiredHeadersMapped(Headers(values));
    Verdicts(values[1..], ColumnMapOf(Headers(values)), env)
  }

  /** The whole of `importTrainings` on a fetched sheet. */
  function Import(values: seq<Row>, env: Env, now: Instant,
                  rows0: seq<TrainingData>, pending0: seq<TrainingData>): (o: Outcome)
    ensures o.flushed <==> values != [] && MissingHeaders(RequiredHeaders, Headers(values)) == []
    ensures !o.flushed ==>
              o.stats.imported == 0 && o.stats.updated == 0 && o.stats.skipped == 0
              && |o.stats.errors| == 1 && o.rows == rows0 && o.pending == pending0
    ensures values == [] ==> o.stats.errors == [NoDataMessage]
    ensures values != [] && !o.flushed ==>
              o.stats.errors == [MissingHeadersMessage(MissingHeaders(RequiredHeaders, Headers(values)))]
  {
    if values == [] then Outcome(Stats(0, 0, 0, [NoDataMessage]), false, rows0, pending0)
    else
      var missing := MissingHeaders(RequiredHeaders, Headers(values));
      if missing != [] then Outcome(Stats(0, 0, 0, [MissingHeadersMessage(missing)]), false, rows0, pending0)
      else
        var vs := SheetVerdicts(values, env);
        var l0 := Ledger(Stats(0, 0, 0, []), rows0, pending0);
        var l := Reconcile(vs, |vs|, env, now, l0);
        Outcome(l.stats, true, l.rows, l.pending)
  }

  /** A completed run counts every data row exactly once, as imported,
      updated or skipped, and reports one error per skipped row. */
  lemma ImportCounts(values: seq<Row>, env: Env, now: Instant, rows0: seq<TrainingData>, pending0: seq<TrainingData>)
    requires Import(values, env, now, rows0, pending0).flushed
    ensures var o := Import(values, env, now, rows0, pending0);
            && o.stats.imported + o.stats.updated + o.stats.skipped == |values| - 1
            && |o.stats.errors| == o.stats.skipped
  {
    var vs := SheetVerdicts(values, env);
    var l0 := Ledger(Stats(0, 0, 0, []), rows0, pending0);
    ReconcileAccounting(vs, |vs|, env, now, l0);
    RejectedRowsInOrder(vs, |vs|);
  }

  /** The indices of the rejected rows among the first `k`. */
  function RejectedRows(vs: seq<Verdict>, k: nat): seq<nat>
    requires k <= |vs|
  {
    if k == 0 then []
    else RejectedRows(vs, k - 1) + (if vs[k - 1].Reject? then [k - 1] else [])
  }

  /** The messages of the rejected rows among the first `k`. */
  function RejectedMessages(vs: seq<Verdict>, k: nat): seq<string>
    requires k <= |vs|
  {
    if k == 0 then []
    else RejectedMessages(vs, k - 1) + (if vs[k - 1].Reject? then [vs[k - 1].message] else [])
  }

  /** The rejected rows are listed once each, in row order, each with its
      own message. */
  lemma {:induction false} RejectedRowsInOrder(vs: seq<Verdict>, k: nat)
    requires k <= |vs|
    ensures var idx, msgs := RejectedRows(vs, k), RejectedMessages(vs, k);
            && |idx| == |msgs|
            && (forall e :: 0 <= e < |idx| ==>
                  idx[e] < k && vs[idx[e]] == Reject(msgs[e]))
            && (forall e, f :: 0 <= e < f < |idx| ==> idx[e] < idx[f])
            && (forall j :: 0 <= j < k && vs[j].Reject? ==> j in idx)
  {
    if k > 0 {
      RejectedRowsInOrder(vs, k - 1);
    }
  }

  /** Over the first `k` rows the counters grow by `k` together, imported
      and updated never fall, skipped grows by the rejected rows and the
      errors by their messages, in row order. */
  lemma {:induction false} ReconcileAccounting(vs: seq<Verdict>, k: nat, env: Env, now: Instant, l0: Ledger)
    requires k <= |vs|
    ensures var l := Reconcile(vs, k, env, now, l0);
            && l.stats.imported + l.stats.updated + l.stats.skipped
               == l0.stats.imported + l0.stats.updated + l0.stats.skipped + k
            && l.stats.errors == l0.stats.errors + RejectedMessages(vs, k)
            && l.stats.skipped == l0.stats.skipped + |RejectedRows(vs, k)|
            && l.stats.imported >= l0.stats.imported && l.stats.updated >= l0.stats.updated
  {
    ReconcileCountersGrow(vs, k, env, now, l0);
    if k > 0 {
      ReconcileAccounting(vs, k - 1, env, now, l0);
      var prev := Reconcile(vs, k - 1, env, now, l0);
      StepStats(prev, k - 1, vs[k - 1], env, now);
      var tail := if vs[k - 1].Reject? then [vs[k - 1].message] else [];
      assert RejectedMessages(vs, k) == RejectedMessages(vs, k - 1) + tail;
      assert l0.stats.errors + RejectedMessages(vs, k - 1) + tail
          == l0.stats.errors + (RejectedMessages(vs, k - 1) + tail);
    }
  }

  /** Over any number of rows, imported and updated never fall. */
  lemma {:induction false} ReconcileCountersGrow(vs: seq<Verdict>, k: nat, env: Env, now: Instant, l0: Ledger)
    requires k <= |vs|
    ensures var l := Reconcile(vs, k, env, now, l0);
            l.stats.imported >= l0.stats.imported && l.stats.updated >= l0.stats.updated
  {
    if k > 0 {
      ReconcileCountersGrow(vs, k - 1, env, now, l0);
      StepStats(Reconcile(vs, k - 1, env, now, l0), k - 1, vs[k - 1], env, now);
    }
  }

  /** What one row does to the statistics: it adds to exactly one counter. */
  lemma StepStats(l: Ledger, rowIndex: nat, v: Verdict, env: Env, now: Instant)
    ensures var s := Step(l, rowIndex, v, env, now).stats;
            && s.imported + s.updated + s.skipped == l.stats.imported + l.stats.updated + l.stats.skipped + 1
            && s.imported >= l.stats.imported && s.updated >= l.stats.updated
            && (v.Reject? ==> s.imported == l.stats.imported && s.updated == l.stats.updated)
            && s.skipped == l.stats.skipped + (if v.Reject? then 1 else 0)
            && s.errors == l.stats.errors + (if v.Reject? then [v.message] else [])
  {
  }

  /** A completed run reports one error per skipped row, in row order,
      each the message of that row's rejection and naming that row; every
      rejected row is reported. */
  lemma ImportErrors(values: seq<Row>, env: Env, now: Instant, rows0: seq<TrainingData>, pending0: seq<TrainingData>)
    requires values != [] && MissingHeaders(RequiredHeaders, Headers(values)) == []
    ensures var o, vs := Import(values, env, now, rows0, pending0), SheetVerdicts(values, env);
            var idx := RejectedRows(vs, |vs|);
            && |o.stats.errors| == |idx| == o.stats.skipped
            && (forall e :: 0 <= e < |idx| ==>
                  idx[e] < |vs| && vs[idx[e]] == Reject(o.stats.errors[e])
                  && RowLabel(idx[e]) <= o.stats.errors[e])
            && (forall e, f :: 0 <= e < f < |idx| ==> idx[e] < idx[f])
            && (forall j :: 0 <= j < |vs| && vs[j].Reject? ==> j in idx)
  {
    var vs := SheetVerdicts(values, env);
    var l0 := Ledger(Stats(0, 0, 0, []), rows0, pending0);
    var l := Reconcile(vs, |vs|, env, now, l0);
    ImportCompleted(values, env, now, rows0, pending0);
    ReconcileAccounting(vs, |vs|, env, now, l0);
    assert l.stats.errors == RejectedMessages(vs, |vs|);
    RejectedRowsInOrder(vs, |vs|);
    SheetVerdictsNameRows(values, env);
  }

  /** A sheet whose headers pass is reconciled row by row from an empty
      set of statistics and then flushed. */
  lemma ImportCompleted(values: seq<Row>, env: Env, now: Instant, rows0: seq<TrainingData>, pending0: seq<TrainingData>)
    requires values != [] && MissingHeaders(RequiredHeaders, Headers(values)) == []
    ensures var vs := SheetVerdicts(values, env);
            var l := Reconcile(vs, |vs|, env, now, Ledger(Stats(0, 0, 0, []), rows0, pending0));
            Import(values, env, now, rows0, pending0) == Outcome(l.stats, true, l.rows, l.pending)
  {
  }

  /** Every rejected row of a sheet is reported under its own label. */
  lemma SheetVerdictsNameRows(values: seq<Row>, env: Env)
    requires values != [] && MissingHeaders(RequiredHeaders, Headers(values)) == []
    ensures var vs := SheetVerdicts(values, env);
            forall j :: 0 <= j < |vs| && vs[j].Reject? ==> RowLabel(j) <= vs[j].message
  {
    var vs := SheetVerdicts(values, env);
    RequiredHeadersMapped(Headers(values));
    var cmap := ColumnMapOf(Headers(values));
    forall j | 0 <= j < |vs| && vs[j].Reject? ensures RowLabel(j) <= vs[j].message {
      VerdictNamesRow(values[1..][j], j, cmap, env);
    }
  }

  /** A rejected row's message starts with that row's label. */
  lemma VerdictNamesRow(row: Row, rowIndex: nat, cmap: map<string, nat>, env: Env)
    requires HasRequired(cmap)
    ensures Judge(row, rowIndex, cmap, env).Reject? ==> RowLabel(rowIndex) <= Judge(row, rowIndex, cmap, env).message
  {
  }

  /** The fields an update leaves alone. */
  predicate SameIdentity(a: TrainingData, b: TrainingData) {
    a.id == b.id && a.googleSheetId == b.googleSheetId && a.title == b.title && a.date == b.date
    && a.createdAt == b.createdAt && a.updatedAt == b.updatedAt
    && a.bookings == b.bookings && a.trainingReviews == b.trainingReviews
  }

  /** Stored rows are only ever updated in place: none is added or
      removed, each keeps its id, key, title, date, timestamps and
      collections, stays complete if it was, and a row that changed has
      its available slots reset to its slots. */
  lemma {:induction false} ReconcileUpdatesInPlace(vs: seq<Verdict>, k: nat, env: Env, now: Instant, l0: Ledger)
    requires k <= |vs|
    ensures var l := Reconcile(vs, k, env, now, l0);
            && |l.rows| == |l0.rows|
            && (forall i :: 0 <= i < |l.rows| ==> SameIdentity(l.rows[i], l0.rows[i]))
            && (forall i :: 0 <= i < |l.rows| && Complete(l0.rows[i]) ==> Complete(l.rows[i]))
            && (forall i :: 0 <= i < |l.rows| ==>
                  l.rows[i] == l0.rows[i] || (l.rows[i].slots.Some? && l.rows[i].slotsAvailable == l.rows[i].slots))
  {
    if k > 0 {
      ReconcileUpdatesInPlace(vs, k - 1, env, now, l0);
    }
  }

  /** New trainings are only ever appended to the scheduled rows, one per
      insert; each is complete, carries its key, has as many available
      slots as slots, no id yet, and both timestamps at `now`. */
  lemma {:induction false} ReconcileAppendsInserts(vs: seq<Verdict>, k: nat, env: Env, now: Instant, l0: Ledger)
    requires k <= |vs|
    ensures var l := Reconcile(vs, k, env, now, l0);
            && |l.pending| + l0.stats.imported == |l0.pending| + l.stats.imported
            && |l0.pending| <= |l.pending| && l.pending[..|l0.pending|] == l0.pending
            && (forall i :: |l0.pending| <= i < |l.pending| ==>
                  Complete(l.pending[i]) && l.pending[i].slotsAvailable == l.pending[i].slots
                  && l.pending[i].id.None? && l.pending[i].createdAt == now && l.pending[i].updatedAt == now)
  {
    if k > 0 {
      ReconcileAppendsInserts(vs, k - 1, env, now, l0);
      var prev := Reconcile(vs, k - 1, env, now, l0);
      var l := Reconcile(vs, k, env, now, l0);
      assert l.pending == prev.pending || l.pending == prev.pending + [l.pending[|l.pending| - 1]];
      assert l.pending[..|l0.pending|] == prev.pending[..|l0.pending|];
    }
  }

  lemma KeySetUpdate(rows: seq<TrainingData>, i: nat, x: TrainingData)
    requires i < |rows| && x.googleSheetId == rows[i].googleSheetId
    ensures KeySet(rows[i := x]) == KeySet(rows)
  {
    var r := rows[i := x];
    forall key | key in KeySet(rows) ensures key in KeySet(r) {
      var j :| 0 <= j < |rows| && rows[j].googleSheetId.Some? && rows[j].googleSheetId.value == key;
      assert r[j].googleSheetId == rows[j].googleSheetId;
    }
    forall key | key in KeySet(r) ensures key in KeySet(rows) {
      var j :| 0 <= j < |r| && r[j].googleSheetId.Some? && r[j].googleSheetId.value == key;
      assert r[j].googleSheetId == rows[j].googleSheetId;
    }
  }

  lemma KeySetAppend(a: seq<TrainingData>, b: seq<TrainingData>)
    ensures KeySet(a + b) == KeySet(a) + KeySet(b)
  {
    var ab := a + b;
    forall key | key in KeySet(ab) ensures key in KeySet(a) + KeySet(b) {
      var j :| 0 <= j < |ab| && ab[j].googleSheetId.Some? && ab[j].googleSheetId.value == key;
      if j >= |a| {
        assert b[j - |a|] == ab[j];
      }
    }
    forall key | key in KeySet(b) ensures key in KeySet(ab) {
      var j :| 0 <= j < |b| && b[j].googleSheetId.Some? && b[j].googleSheetId.value == key;
      assert ab[|a| + j] == b[j];
    }
    forall key | key in KeySet(a) ensures key in KeySet(ab) {
      var j :| 0 <= j < |a| && a[j].googleSheetId.Some? && a[j].googleSheetId.value == key;
      assert ab[j] == a[j];
    }
  }

  /** Giving rows their ids does not change their keys. */
  lemma KeySetAssignIds(rows: seq<TrainingData>, first: int)
    ensures KeySet(AssignIds(rows, first)) == KeySet(rows)
  {
    var r := AssignIds(rows, first);
    forall key | key in KeySet(rows) ensures key in KeySet(r) {
      var j :| 0 <= j < |rows| && rows[j].googleSheetId.Some? && rows[j].googleSheetId.value == key;
      assert r[j].googleSheetId == rows[j].googleSheetId;
    }
    forall key | key in KeySet(r) ensures key in KeySet(rows) {
      var j :| 0 <= j < |r| && r[j].googleSheetId.Some? && r[j].googleSheetId.value == key;
      assert r[j].googleSheetId == rows[j].googleSheetId;
    }
  }

  /** After the loop, the key of every accepted row is carried by a stored
      or a scheduled row; the stored keys are those it started with. */
  lemma {:induction false} AcceptedKeysKept(vs: seq<Verdict>, k: nat, env: Env, now: Instant, l0: Ledger)
    requires k <= |vs|
    ensures var l := Reconcile(vs, k, env, now, l0);
            && KeySet(l.rows) == KeySet(l0.rows)
            && KeySet(l0.pending) <= KeySet(l.pending)
            && forall j :: 0 <= j < k && vs[j].Accept? ==> vs[j].candidate.key in KeySet(l.rows) + KeySet(l.pending)
  {
    if k > 0 {
      AcceptedKeysKept(vs, k - 1, env, now, l0);
      var prev := Reconcile(vs, k - 1, env, now, l0);
      if vs[k - 1].Accept? {
        var c := vs[k - 1].candidate;
        KeyIndexFindsKeySet(prev.rows, c.key);
        match KeyIndex(prev.rows, c.key)
        case Some(i) =>
          KeySetUpdate(prev.rows, i, Updated(prev.rows[i], c, env));
        case None =>
          KeySetAppend(prev.pending, [Inserted(c, env, now)]);
          assert [Inserted(c, env, now)][0].googleSheetId == Some(c.key);
      }
    }
  }

  /** When every accepted row's key is already stored, the loop only
      updates: one update per accepted row and no insert. */
  lemma {:induction false} KnownKeysOnlyUpdate(vs: seq<Verdict>, k: nat, env: Env, now: Instant, l0: Ledger)
    requires k <= |vs|
    requires forall j :: 0 <= j < k && vs[j].Accept? ==> vs[j].candidate.key in KeySet(l0.rows)
    ensures var l := Reconcile(vs, k, env, now, l0);
            && l.stats.imported == l0.stats.imported
            && l.stats.updated + |RejectedRows(vs, k)| == l0.stats.updated + k
  {
    if k > 0 {
      KnownKeysOnlyUpdate(vs, k - 1, env, now, l0);
      AcceptedKeysKept(vs, k - 1, env, now, l0);
      var prev := Reconcile(vs, k - 1, env, now, l0);
      if vs[k - 1].Accept? {
        var key := vs[k - 1].candidate.key;
        assert key in KeySet(prev.rows);
        KeyIndexFindsKeySet(prev.rows, key);
        assert RejectedRows(vs, k) == RejectedRows(vs, k - 1);
      } else {
        assert |RejectedRows(vs, k)| == |RejectedRows(vs, k - 1)| + 1;
      }
    }
  }

  /** Importing the same sheet again, against what the first run flushed,
      updates every accepted row, inserts nothing, and reports the same
      skipped rows and errors. */
  lemma ReimportOnlyUpdates(values: seq<Row>, env: Env, now1: Instant, now2: Instant,
                            rows0: seq<TrainingData>, pending0: seq<TrainingData>, first: int)
    requires Import(values, env, now1, rows0, pending0).flushed
    ensures var o1 := Import(values, env, now1, rows0, pending0);
            var o2 := Import(values, env, now2, o1.rows + AssignIds(o1.pending, first), []);
            && o2.flushed
            && o2.stats.imported == 0
            && o2.stats.updated == o1.stats.imported + o1.stats.updated
            && o2.stats.skipped == o1.stats.skipped
            && o2.stats.errors == o1.stats.errors
  {
    var vs := SheetVerdicts(values, env);
    var o1 := Import(values, env, now1, rows0, pending0);
    var stored := o1.rows + AssignIds(o1.pending, first);
    var l1 := Ledger(Stats(0, 0, 0, []), rows0, pending0);
    var l2 := Ledger(Stats(0, 0, 0, []), stored, []);
    AcceptedKeysKept(vs, |vs|, env, now1, l1);
    KeySetAppend(o1.rows, AssignIds(o1.pending, first));
    KeySetAssignIds(o1.pending, first);
    KnownKeysOnlyUpdate(vs, |vs|, env, now2, l2);
    ReconcileAccounting(vs, |vs|, env, now1, l1);
    ReconcileAccounting(vs, |vs|, env, now2, l2);
  }

  /** The stored row an existing training is found at gets the update
      branch's setters, in the order the import calls them. */
  method UpdateExisting(t: Training, c: Candidate, env: Env)
    modifies t
    ensures t.Data() == Updated(old(t.Data()), c, env)
  {
    var self := t.SetDescription(c.description);
    self := t.SetTime(c.time);
    self := t.SetSlots(env.toInt(c.slots));
    self := t.SetSlotsAvailable(env.toInt(c.slots));
    self := t.SetPrice(env.toFloat(c.price));
    self := t.SetDuration(c.duration);
  }

  /** The insert branch's new training, set up field by field. */
  method CreateTraining(c: Candidate, env: Env, now: Instant) returns (t: Training)
    ensures fresh(t) && t.Valid()
    ensures t.Data() == Inserted(c, env, now)
  {
    t := new Training(now);
    var self := t.SetTitle(c.title);
    self := t.SetDescription(c.description);
    self := t.SetDate(c.date);
    self := t.SetTime(c.time);
    self := t.SetSlots(env.toInt(c.slots));
    self := t.SetSlotsAvailable(env.toInt(c.slots));
    self := t.SetPrice(env.toFloat(c.price));
    self := t.SetDuration(c.duration);
    self := t.SetGoogleSheetId(c.key);
  }

  /** Builds the header-to-column map column by column. */
  method BuildColumnMap(headers: seq<string>) returns (m: map<string, nat>)
    ensures m == ColumnMapOf(headers)
  {
    m := map[];
    var index := 0;
    while index < |headers|
      invariant 0 <= index <= |headers|
      invariant m == ColumnMapOf(headers[..index])
    {
      assert headers[..index + 1][..index] == headers[..index];
      m := m[headers[index] := index];
      index := index + 1;
    }
    assert headers[..index] == headers;
  }

  class TrainingImportService {
    const entityManager: EntityManager

    constructor (entityManager: EntityManager)
      ensures this.entityManager == entityManager
    {
      this.entityManager := entityManager;
    }

    /** `importTrainings` on the sheet `values`: the statistics are those
        of `Import`; a run that gets past the header checks flushes once,
        after which the table holds the updated stored rows followed by
        the scheduled ones with their new ids; an aborted run changes
        nothing. */
    method ImportTrainings(values: seq<Row>, env: Env, now: Instant) returns (stats: Stats)
      requires entityManager.Valid() && entityManager.CanFlush() && entityManager.Tracked()
      modifies entityManager, entityManager.Managed(), entityManager.Repr
      ensures entityManager.Valid()
      ensures var o := Import(values, env, now, old(entityManager.Rows()), old(entityManager.PendingRows()));
              && stats == o.stats
              && (o.flushed ==>
                    entityManager.Rows() == o.rows + AssignIds(o.pending, old(entityManager.nextId))
                    && entityManager.pending == []
                    && entityManager.nextId == old(entityManager.nextId) + |o.pending|)
              && (!o.flushed ==>
                    entityManager.table == old(entityManager.table)
                    && entityManager.pending == old(entityManager.pending)
                    && entityManager.nextId == old(entityManager.nextId)
                    && entityManager.Rows() == o.rows && entityManager.PendingRows() == o.pending)
    {
      var em := entityManager;
      if values == [] {
        return Stats(0, 0, 0, [NoDataMessage]);
      }
      var headers := LowerHeaders(values[0]);
      var missing := MissingHeaders(RequiredHeaders, headers);
      if missing != [] {
        return Stats(0, 0, 0, [MissingHeadersMessage(missing)]);
      }
      stats := ImportSheet(values, env, now);
    }

    /** A sheet whose headers passed the checks: the column map, the row
        loop and the one flush. */
    method ImportSheet(values: seq<Row>, env: Env, now: Instant) returns (stats: Stats)
      requires values != [] && MissingHeaders(RequiredHeaders, Headers(values)) == []
      requires entityManager.Valid() && entityManager.CanFlush() && entityManager.Tracked()
      modifies entityManager, entityManager.Managed(), entityManager.Repr
      ensures entityManager.Valid()
      ensures var vs := SheetVerdicts(values, env);
              var l := Reconcile(vs, |vs|, env, now,
                                 Ledger(Stats(0, 0, 0, []), old(entityManager.Rows()), old(entityManager.PendingRows())));
              && stats == l.stats
              && entityManager.Rows() == l.rows + AssignIds(l.pending, old(entityManager.nextId))
              && entityManager.pending == []
              && entityManager.nextId == old(entityManager.nextId) + |l.pending|
    {
      var headers := LowerHeaders(values[0]);
      RequiredHeadersMapped(headers);
      var columnMap := BuildColumnMap(headers);
      ghost var vs := SheetVerdicts(values, env);
      assert vs == Verdicts(values[1..], columnMap, env);
      ghost var l := Reconcile(vs, |vs|, env, now,
                               Ledger(Stats(0, 0, 0, []), entityManager.Rows(), entityManager.PendingRows()));
      ghost var first := entityManager.nextId;
      stats := ImportAndFlush(values[1..], columnMap, env, now);
      assert stats == l.stats && entityManager.Rows() == l.rows + AssignIds(l.pending, first);
      assert entityManager.nextId == first + |l.pending|;
    }

    /** The row loop followed by the one flush. */
    method ImportAndFlush(data: seq<Row>, columnMap: map<string, nat>, env: Env, now: Instant) returns (stats: Stats)
      requires HasRequired(columnMap)
      requires entityManager.Valid() && entityManager.CanFlush() && entityManager.Tracked()
      modifies entityManager, entityManager.Managed(), entityManager.Repr
      ensures entityManager.Valid()
      ensures var l := Reconcile(Verdicts(data, columnMap, env), |data|, env, now,
                                 Ledger(Stats(0, 0, 0, []), old(entityManager.Rows()), old(entityManager.PendingRows())));
              && stats == l.stats
              && entityManager.Rows() == l.rows + AssignIds(l.pending, old(entityManager.nextId))
              && entityManager.pending == []
              && entityManager.nextId == old(entityManager.nextId) + |l.pending|
    {
      ghost var l := Reconcile(Verdicts(data, columnMap, env), |data|, env, now,
                               Ledger(Stats(0, 0, 0, []), entityManager.Rows(), entityManager.PendingRows()));
      ghost var first := entityManager.nextId;
      stats := ImportRows(data, columnMap, env, now, Verdicts(data, columnMap, env));
      ghost var rows, pending := entityManager.Rows(), entityManager.PendingRows();
      assert Ledger(stats, rows, pending) == l;
      assert rows == l.rows && pending == l.pending && |entityManager.pending| == |l.pending|;
      entityManager.Flush();
      assert entityManager.Rows() == rows + AssignIds(pending, first);
    }

    /** The row loop: every data row in order, each judged and then
        applied to the store; nothing is flushed. The ghost `vs` names the
        rows' verdicts, so that the loop's invariant speaks of the fold
        over them. */
    method ImportRows(data: seq<Row>, columnMap: map<string, nat>, env: Env, now: Instant, ghost vs: seq<Verdict>)
      returns (stats: Stats)
      requires HasRequired(columnMap) && JudgedRows(data, columnMap, env, vs)
      requires entityManager.Valid() && entityManager.CanFlush() && entityManager.Tracked()
      modifies entityManager, set t | t in entityManager.table
      ensures entityManager.Valid() && entityManager.CanFlush()
      ensures entityManager.table == old(entityManager.table) && entityManager.nextId == old(entityManager.nextId)
      ensures entityManager.Tracked() && fresh(entityManager.Repr - old(entityManager.Repr))
      ensures Ledger(stats, entityManager.Rows(), entityManager.PendingRows())
              == Reconcile(vs, |data|, env, now,
                           Ledger(Stats(0, 0, 0, []), old(entityManager.Rows()), old(entityManager.PendingRows())))
    {
      var em := entityManager;
      stats := Stats(0, 0, 0, []);
      ghost var l0 := Ledger(stats, em.Rows(), em.PendingRows());
      var rowIndex := 0;
      while rowIndex < |data|
        invariant 0 <= rowIndex <= |data|
        invariant em.Valid() && em.CanFlush()
        invariant em.table == old(em.table) && em.nextId == old(em.nextId)
        invariant em.Tracked() && fresh(em.Repr - old(em.Repr))
        invariant Ledger(stats, em.Rows(), em.PendingRows()) == Reconcile(vs, rowIndex, env, now, l0)
      {
        ghost var tracked := em.Repr;
        var created;
        stats, created := ImportRow(em, stats, data, rowIndex, columnMap, env, now, vs, l0);
        assert em.Repr <= tracked + {created};
        rowIndex := rowIndex + 1;
      }
    }
  }

  /** One pass of the row loop: the row is judged and its verdict applied,
      which advances the fold by one row. */
  method ImportRow(em: EntityManager, stats: Stats, data: seq<Row>, rowIndex: nat, columnMap: map<string, nat>,
                   env: Env, now: Instant, ghost vs: seq<Verdict>, ghost l0: Ledger)
    returns (next: Stats, created: Training?)
    requires HasRequired(columnMap) && rowIndex < |data| && JudgedRows(data, columnMap, env, vs)
    requires em.Valid() && em.CanFlush() && em.Tracked()
    requires Ledger(stats, em.Rows(), em.PendingRows()) == Reconcile(vs, rowIndex, env, now, l0)
    modifies em, set t | t in em.table
    ensures em.Valid() && em.CanFlush() && em.Tracked()
    ensures em.table == old(em.table) && em.nextId == old(em.nextId)
    ensures em.Repr == if created == null then old(em.Repr) else old(em.Repr) + {created}
    ensures created != null ==> fresh(created)
    ensures Ledger(next, em.Rows(), em.PendingRows()) == Reconcile(vs, rowIndex + 1, env, now, l0)
  {
    var verdict := Judge(data[rowIndex], rowIndex, columnMap, env);
    next, created := ApplyVerdict(em, stats, rowIndex, verdict, env, now);
  }

  /** One data row, by its verdict: a rejection is counted and reported;
      an accepted row updates or inserts. */
  method ApplyVerdict(em: EntityManager, stats: Stats, rowIndex: nat, verdict: Verdict, env: Env, now: Instant)
    returns (next: Stats, created: Training?)
    requires em.Valid() && em.CanFlush() && em.Tracked()
    modifies em, set t | t in em.table
    ensures em.Valid() && em.CanFlush() && em.Tracked()
    ensures em.table == old(em.table) && em.nextId == old(em.nextId)
    ensures em.Repr == if created == null then old(em.Repr) else old(em.Repr) + {created}
    ensures created == null ==> em.pending == old(em.pending)
    ensures created != null ==> fresh(created) && em.pending == old(em.pending) + [created]
    ensures Ledger(next, em.Rows(), em.PendingRows())
            == Step(Ledger(stats, old(em.Rows()), old(em.PendingRows())), rowIndex, verdict, env, now)
  {
    match verdict {
      case Reject(message) =>
        next, created := stats.(skipped := stats.skipped + 1, errors := stats.errors + [message]), null;
      case Accept(c) =>
        created := Upsert(em, c, env, now);
        next := if created != null then stats.(imported := stats.imported + 1)
                else stats.(updated := stats.updated + 1);
    }
  }

  /** An accepted row: the stored training carrying its key is updated,
      or else a new training is created and scheduled. */
  method Upsert(em: EntityManager, c: Candidate, env: Env, now: Instant) returns (created: Training?)
    requires em.Valid() && em.CanFlush() && em.Tracked()
    modifies em, set t | t in em.table
    ensures em.Valid() && em.CanFlush() && em.Tracked()
    ensures em.table == old(em.table) && em.nextId == old(em.nextId)
    ensures em.Repr == if created == null then old(em.Repr) else old(em.Repr) + {created}
    ensures created == null ==> em.pending == old(em.pending)
    ensures created != null ==> fresh(created) && em.pending == old(em.pending) + [created]
    ensures var found := KeyIndex(old(em.Rows()), c.key);
            && (created == null <==> found.Some?)
            && (found.Some? ==>
                  em.Rows() == old(em.Rows())[found.value := Updated(old(em.Rows())[found.value], c, env)]
                  && em.PendingRows() == old(em.PendingRows()))
            && (found.None? ==>
                  em.Rows() == old(em.Rows()) && em.PendingRows() == old(em.PendingRows()) + [Inserted(c, env, now)])
  {
    var existing := em.FindOneByGoogleSheetId(c.key);
    if existing != null {
      UpdateRow(em, KeyIndex(em.Rows(), c.key).value, c, env);
      created := null;
    } else {
      created := InsertNew(em, c, env, now);
    }
  }

  /** The insert branch: a new training built from the row is scheduled
      behind the ones already waiting; the stored rows are untouched. */
  method InsertNew(em: EntityManager, c: Candidate, env: Env, now: Instant) returns (created: Training)
    requires em.Valid() && em.CanFlush() && em.Tracked()
    modifies em
    ensures em.Valid() && em.CanFlush() && em.Tracked()
    ensures em.table == old(em.table) && em.nextId == old(em.nextId)
    ensures fresh(created) && em.pending == old(em.pending) + [created]
    ensures em.Repr == old(em.Repr) + {created}
    ensures em.Rows() == old(em.Rows()) && em.PendingRows() == old(em.PendingRows()) + [Inserted(c, env, now)]
  {
    ghost var rows, pending := em.Rows(), em.PendingRows();
    created := CreateTraining(c, env, now);
    assert em.Rows() == rows && em.PendingRows() == pending;
    assert created !in em.table && created !in em.pending;
    em.Persist(created);
    assert Complete(created.Data());
  }

  /** Runs the update branch on the stored training at position `i`; the
      other stored and scheduled trainings are untouched. */
  method UpdateRow(em: EntityManager, i: nat, c: Candidate, env: Env)
    requires em.Valid() && em.CanFlush() && i < |em.table|
    modifies em.table[i]
    ensures em.Valid() && em.CanFlush()
    ensures em.Rows() == old(em.Rows())[i := Updated(old(em.Rows())[i], c, env)]
    ensures em.PendingRows() == old(em.PendingRows())
  {
    ghost var rows, pending := em.Rows(), em.PendingRows();
    SplitDistinct(em.table, em.pending);
    UpdateExisting(em.table[i], c, env);
    forall j | 0 <= j < |em.table| && j != i ensures em.table[j].Data() == rows[j] {
      assert em.table[j] != em.table[i];
    }
    assert em.Rows() == rows[i := Updated(rows[i], c, env)];
    assert em.PendingRows() == pending;
  }
}
