/** The Anki collection builder: the records of the five tables of an `.anki2` database, their
    flattening into rows in the column order of the schema, and the collection built from a
    list of front/back notes. `pkg/apkg/model.go` and `pkg/apkg/const.go`. */
module Apkg {
  import opened Wrappers

  // ---------------------------------------------------------------------------
  // Records

  datatype SimpleNote = SimpleNote(front: string, back: string)

  /** A row of `cards`; `kind` is the `type` column. */
  datatype Card = Card(id: int, nid: int, did: int, ord: int, mod: int, usn: int, kind: int, queue: int,
                       due: int, ivl: int, factor: int, reps: int, lapses: int, left: int, odue: int,
                       odid: int, flags: int, data: string)

  /** The single row of `col`. */
  datatype Col = Col(id: int, crt: int, mod: int, scm: int, ver: int, dty: int, usn: int, ls: int,
                     conf: string, models: string, decks: string, dconf: string, tags: string)

  /** A row of `graves`; `kind` is the `type` column. */
  datatype Grave = Grave(usn: int, oid: int, kind: int)

  /** A row of `notes`. */
  datatype Note = Note(id: int, guid: string, mid: int, mod: int, usn: int, tags: string, flds: string,
                       sfld: int, csum: int, flags: int, data: string)

  /** A row of `revlog`; `kind` is the `type` column. */
  datatype Revlog = Revlog(id: int, cid: int, usn: int, ease: int, ivl: int, lastIvl: int, factor: int,
                           time: int, kind: int)

  datatype Anki2 = Anki2(cards: seq<Card>, col: Col, graves: seq<Grave>, notes: seq<Note>, revlog: seq<Revlog>)

  /** A value of a row: the database columns are either integers or text. */
  datatype Cell = IntCell(n: int) | TextCell(s: string)

  type Row = seq<Cell>

  // ---------------------------------------------------------------------------
  // The schema: the column list of every table

  const CardColumns: seq<string> :=
    ["id", "nid", "did", "ord", "mod", "usn", "type", "queue", "due", "ivl", "factor", "reps", "lapses",
     "left", "odue", "odid", "flags", "data"]
  const ColColumns: seq<string> :=
    ["id", "crt", "mod", "scm", "ver", "dty", "usn", "ls", "conf", "models", "decks", "dconf", "tags"]
  const GraveColumns: seq<string> := ["usn", "oid", "type"]
  const NoteColumns: seq<string> :=
    ["id", "guid", "mid", "mod", "usn", "tags", "flds", "sfld", "csum", "flags", "data"]
  const RevlogColumns: seq<string> :=
    ["id", "cid", "usn", "ease", "ivl", "lastIvl", "factor", "time", "type"]

  /** The `tables` map: table name to its columns, in the order the rows are written. */
  const Tables: map<string, seq<string>> :=
    map["cards" := CardColumns, "col" := ColColumns, "graves" := GraveColumns,
        "notes" := NoteColumns, "revlog" := RevlogColumns]

  // ---------------------------------------------------------------------------
  // Fields by column name: the reference the rows are checked against

  function CardField(c: Card, column: string): Option<Cell> {
    if column == "id" then Some(IntCell(c.id))
    else if column == "nid" then Some(IntCell(c.nid))
    else if column == "did" then Some(IntCell(c.did))
    else if column == "ord" then Some(IntCell(c.ord))
    else if column == "mod" then Some(IntCell(c.mod))
    else if column == "usn" then Some(IntCell(c.usn))
    else if column == "type" then Some(IntCell(c.kind))
    else if column == "queue" then Some(IntCell(c.queue))
    else if column == "due" then Some(IntCell(c.due))
    else if column == "ivl" then Some(IntCell(c.ivl))
    else if column == "factor" then Some(IntCell(c.factor))
    else if column == "reps" then Some(IntCell(c.reps))
    else if column == "lapses" then Some(IntCell(c.lapses))
    else if column == "left" then Some(IntCell(c.left))
    else if column == "odue" then Some(IntCell(c.odue))
    else if column == "odid" then Some(IntCell(c.odid))
    else if column == "flags" then Some(IntCell(c.flags))
    else if column == "data" then Some(TextCell(c.data))
    else None
  }

  function ColField(c: Col, column: string): Option<Cell> {
    if column == "id" then Some(IntCell(c.id))
    else if column == "crt" then Some(IntCell(c.crt))
    else if column == "mod" then Some(IntCell(c.mod))
    else if column == "scm" then Some(IntCell(c.scm))
    else if column == "ver" then Some(IntCell(c.ver))
    else if column == "dty" then Some(IntCell(c.dty))
    else if column == "usn" then Some(IntCell(c.usn))
    else if column == "ls" then Some(IntCell(c.ls))
    else if column == "conf" then Some(TextCell(c.conf))
    else if column == "models" then Some(TextCell(c.models))
    else if column == "decks" then Some(TextCell(c.decks))
    else if column == "dconf" then Some(TextCell(c.dconf))
    else if column == "tags" then Some(TextCell(c.tags))
    else None
  }

  function GraveField(g: Grave, column: string): Option<Cell> {
    if column == "usn" then Some(IntCell(g.usn))
    else if column == "oid" then Some(IntCell(g.oid))
    else if column == "type" then Some(IntCell(g.kind))
    else None
  }

  function NoteField(n: Note, column: string): Option<Cell> {
    if column == "id" then Some(IntCell(n.id))
    else if column == "guid" then Some(TextCell(n.guid))
    else if column == "mid" then Some(IntCell(n.mid))
    else if column == "mod" then Some(IntCell(n.mod))
    else if column == "usn" then Some(IntCell(n.usn))
    else if column == "tags" then Some(TextCell(n.tags))
    else if column == "flds" then Some(TextCell(n.flds))
    else if column == "sfld" then Some(IntCell(n.sfld))
    else if column == "csum" then Some(IntCell(n.csum))
    else if column == "flags" then Some(IntCell(n.flags))
    else if column == "data" then Some(TextCell(n.data))
    else None
  }

  function RevlogField(r: Revlog, column: string): Option<Cell> {
    if column == "id" then Some(IntCell(r.id))
    else if column == "cid" then Some(IntCell(r.cid))
    else if column == "usn" then Some(IntCell(r.usn))
    else if column == "ease" then Some(IntCell(r.ease))
    else if column == "ivl" then Some(IntCell(r.ivl))
    else if column == "lastIvl" then Some(IntCell(r.lastIvl))
    else if column == "factor" then Some(IntCell(r.factor))
    else if column == "time" then Some(IntCell(r.time))
    else if column == "type" then Some(IntCell(r.kind))
    else None
  }

  // ---------------------------------------------------------------------------
  // toRow

  /** `Card.toRow`. */
  function CardRow(c: Card): (row: Row)
    ensures |row| == |Tables["cards"]|
  {
    [IntCell(c.id), IntCell(c.nid), IntCell(c.did), IntCell(c.ord), IntCell(c.mod), IntCell(c.usn),
     IntCell(c.kind), IntCell(c.queue), IntCell(c.due), IntCell(c.ivl), IntCell(c.factor), IntCell(c.reps),
     IntCell(c.lapses), IntCell(c.left), IntCell(c.odue), IntCell(c.odid), IntCell(c.flags), TextCell(c.data)]
  }

  /** `Col.toRow`. */
  function ColRow(c: Col): (row: Row)
    ensures |row| == |Tables["col"]|
  {
    [IntCell(c.id), IntCell(c.crt), IntCell(c.mod), IntCell(c.scm), IntCell(c.ver), IntCell(c.dty),
     IntCell(c.usn), IntCell(c.ls), TextCell(c.conf), TextCell(c.models), TextCell(c.decks),
     TextCell(c.dconf), TextCell(c.tags)]
  }

  /** `Grave.toRow`. */
  function GraveRow(g: Grave): (row: Row)
    ensures |row| == |Tables["graves"]|
  {
    [IntCell(g.usn), IntCell(g.oid), IntCell(g.kind)]
  }

  /** `Note.toRow`. */
  function NoteRow(n: Note): (row: Row)
    ensures |row| == |Tables["notes"]|
  {
    [IntCell(n.id), TextCell(n.guid), IntCell(n.mid), IntCell(n.mod), IntCell(n.usn), TextCell(n.tags),
     TextCell(n.flds), IntCell(n.sfld), IntCell(n.csum), IntCell(n.flags), TextCell(n.data)]
  }

  /** `Revlog.toRow`. */
  function RevlogRow(r: Revlog): (row: Row)
    ensures |row| == |Tables["revlog"]|
  {
    [IntCell(r.id), IntCell(r.cid), IntCell(r.usn), IntCell(r.ease), IntCell(r.ivl), IntCell(r.lastIvl),
     IntCell(r.factor), IntCell(r.time), IntCell(r.kind)]
  }

  /** Cell `i` of a card's row is the card's field named by column `i` of `cards`. */
  lemma CardRowMatchesColumns(c: Card)
    ensures forall i :: 0 <= i < |CardColumns| ==> CardField(c, CardColumns[i]) == Some(CardRow(c)[i])
  {
  }

  /** Cell `i` of the collection row is the field named by column `i` of `col`. */
  lemma ColRowMatchesColumns(c: Col)
    ensures forall i :: 0 <= i < |ColColumns| ==> ColField(c, ColColumns[i]) == Some(ColRow(c)[i])
  {
  }

  /** Cell `i` of a grave's row is the field named by column `i` of `graves`. */
  lemma GraveRowMatchesColumns(g: Grave)
    ensures forall i :: 0 <= i < |GraveColumns| ==> GraveField(g, GraveColumns[i]) == Some(GraveRow(g)[i])
  {
  }

  /** Cell `i` of a note's row is the field named by column `i` of `notes`. */
  lemma NoteRowMatchesColumns(n: Note)
    ensures forall i :: 0 <= i < |NoteColumns| ==> NoteField(n, NoteColumns[i]) == Some(NoteRow(n)[i])
  {
  }

  /** Cell `i` of a review's row is the field named by column `i` of `revlog`. */
  lemma RevlogRowMatchesColumns(r: Revlog)
    ensures forall i :: 0 <= i < |RevlogColumns| ==> RevlogField(r, RevlogColumns[i]) == Some(RevlogRow(r)[i])
  {
  }

  // ---------------------------------------------------------------------------
  // GetTable

  /** The rows `GetTable` returns for a table name: one per record, the single collection row,
      or none for a name outside the schema. */
  function TableRows(a: Anki2, table: string): seq<Row> {
    if table == "cards" then seq(|a.cards|, i requires 0 <= i < |a.cards| => CardRow(a.cards[i]))
    else if table == "col" then [ColRow(a.col)]
    else if table == "graves" then seq(|a.graves|, i requires 0 <= i < |a.graves| => GraveRow(a.graves[i]))
    else if table == "notes" then seq(|a.notes|, i requires 0 <= i < |a.notes| => NoteRow(a.notes[i]))
    else if table == "revlog" then seq(|a.revlog|, i requires 0 <= i < |a.revlog| => RevlogRow(a.revlog[i]))
    else []
  }

  /** `Anki2.GetTable`: append the row of every record of the named table. */
  method GetTable(a: Anki2, table: string) returns (rows: seq<Row>)
    ensures rows == TableRows(a, table)
  {
    rows := [];
    if table == "cards" {
      for i := 0 to |a.cards|
        invariant rows == seq(i, k requires 0 <= k < i => CardRow(a.cards[k]))
      {
        rows := rows + [CardRow(a.cards[i])];
      }
    } else if table == "col" {
      rows := [ColRow(a.col)];
    } else if table == "graves" {
      for i := 0 to |a.graves|
        invariant rows == seq(i, k requires 0 <= k < i => GraveRow(a.graves[k]))
      {
        rows := rows + [GraveRow(a.graves[i])];
      }
    } else if table == "notes" {
      for i := 0 to |a.notes|
        invariant rows == seq(i, k requires 0 <= k < i => NoteRow(a.notes[k]))
      {
        rows := rows + [NoteRow(a.notes[i])];
      }
    } else if table == "revlog" {
      for i := 0 to |a.revlog|
        invariant rows == seq(i, k requires 0 <= k < i => RevlogRow(a.revlog[k]))
      {
        rows := rows + [RevlogRow(a.revlog[i])];
      }
    }
  }

  /** Row counts: one per record of the table, exactly one for `col`, none for an unknown name. */
  lemma TableRowCounts(a: Anki2, table: string)
    ensures table == "cards" ==> |TableRows(a, table)| == |a.cards|
    ensures table == "col" ==> |TableRows(a, table)| == 1
    ensures table == "graves" ==> |TableRows(a, table)| == |a.graves|
    ensures table == "notes" ==> |TableRows(a, table)| == |a.notes|
    ensures table == "revlog" ==> |TableRows(a, table)| == |a.revlog|
    ensures table !in Tables ==> TableRows(a, table) == []
  {
  }

  /** Every row of a table is as wide as that table's column list. */
  lemma TableRowWidths(a: Anki2, table: string)
    ensures forall r :: r in TableRows(a, table) ==> table in Tables && |r| == |Tables[table]|
  {
  }

  // ---------------------------------------------------------------------------
  // NewSimpleAnki

  const NanosPerSecond: int := 1_000_000_000
  const NanosPerMilli: int := 1_000_000

  /** The byte Anki separates the fields of a note with. */
  const FieldSeparator: char := '\U{1F}'

  /** The collection's configuration strings; their values are not part of this model. */
  datatype ColDefaults = ColDefaults(conf: string, models: string, decks: string, dconf: string)

  /** The number a string of decimal digits spells, most significant digit first. */
  function DecimalValue(s: string): nat
    requires forall i :: 0 <= i < |s| ==> '0' <= s[i] <= '9'
  {
    if s == [] then 0 else 10 * DecimalValue(s[..|s| - 1]) + (s[|s| - 1] as int - '0' as int)
  }

  /** The decimal text of a non-negative integer, as `strconv.Itoa` writes it:
      its digits spell `n`, with no leading zero. */
  function Itoa(n: nat): (s: string)
    ensures |s| >= 1
    ensures forall i :: 0 <= i < |s| ==> '0' <= s[i] <= '9'
    ensures |s| > 1 ==> s[0] != '0'
    ensures DecimalValue(s) == n
  {
    if n < 10 then [Digit(n)]
    else
      var high := Itoa(n / 10);
      var s := high + [Digit(n % 10)];
      assert s[..|s| - 1] == high;
      s
  }

  function Digit(d: nat): (c: char)
    requires d < 10
    ensures '0' <= c <= '9' && c as int - '0' as int == d
  {
    (48 + d) as char
  }

  /** The note's fields, front and back joined by the separator. */
  function Fields(note: SimpleNote): (flds: string)
    ensures |flds| == |note.front| + 1 + |note.back|
    ensures flds[..|note.front|] == note.front
    ensures flds[|note.front|] == FieldSeparator
    ensures flds[|note.front| + 1..] == note.back
  {
    note.front + [FieldSeparator] + note.back
  }

  /** The text before the first separator (all of it when there is none). */
  function FirstField(flds: string): string {
    if flds == [] || flds[0] == FieldSeparator then [] else [flds[0]] + FirstField(flds[1..])
  }

  /** The text after the first separator (nothing when there is none). */
  function RestFields(flds: string): string {
    if flds == [] then [] else if flds[0] == FieldSeparator then flds[1..] else RestFields(flds[1..])
  }

  /** A front without the separator is recovered from the joined fields, and so is the back. */
  lemma {:induction false} FieldsRoundTrip(note: SimpleNote)
    requires FieldSeparator !in note.front
    ensures FirstField(Fields(note)) == note.front
    ensures RestFields(Fields(note)) == note.back
    decreases |note.front|
  {
    var f := note.front;
    if f != [] {
      var rest := SimpleNote(f[1..], note.back);
      assert FieldSeparator !in rest.front by {
        assert forall x :: x in f[1..] ==> x in f;
      }
      FieldsRoundTrip(rest);
      assert Fields(note) == [f[0]] + Fields(rest);
      assert Fields(note)[1..] == Fields(rest);
    } else {
      assert Fields(note) == [FieldSeparator] + note.back;
    }
  }

  /** Note `i` of a built collection. */
  function NoteAt(notes: seq<SimpleNote>, i: nat, unix: int, unixMilli: int, rand: nat -> nat): Note
    requires i < |notes|
  {
    Note(unixMilli + i, Itoa(rand(i)), 1, unix, unixMilli, "", Fields(notes[i]), 0, unixMilli, 0, "")
  }

  /** Card `i` of a built collection: it points at note `i` and is due in position `i`. */
  function CardAt(i: nat, unix: int, unixMilli: int): Card {
    Card(unixMilli + i, unixMilli + i, 1, 0, unix, unixMilli, 0, 0, i, 0, 0, 0, 0, 0, 0, 0, 0, "")
  }

  /** The collection `NewSimpleAnki` builds at `nowNanos` (nanoseconds since the epoch), with
      `rand(i)` the `i`-th draw of the random source. */
  function SimpleAnki(notes: seq<SimpleNote>, nowNanos: int, rand: nat -> nat, defaults: ColDefaults): Anki2 {
    var unix := nowNanos / NanosPerSecond;
    var unixMilli := nowNanos / NanosPerMilli;
    Anki2(
      seq(|notes|, i requires 0 <= i < |notes| => CardAt(i, unix, unixMilli)),
      Col(1, unix, unixMilli, unixMilli, 11, 0, 0, 0, defaults.conf, defaults.models, defaults.decks, defaults.dconf, "{}"),
      [],
      seq(|notes|, i requires 0 <= i < |notes| => NoteAt(notes, i, unix, unixMilli, rand)),
      [])
  }

  /** `NewSimpleAnki`: the collection row, then one note and one card per input note. */
  method NewSimpleAnki(notes: seq<SimpleNote>, nowNanos: int, rand: nat -> nat, defaults: ColDefaults)
    returns (res: Anki2)
    ensures res == SimpleAnki(notes, nowNanos, rand, defaults)
  {
    var unix := nowNanos / NanosPerSecond;
    var unixMilli := nowNanos / NanosPerMilli;
    var col := Col(1, unix, unixMilli, unixMilli, 11, 0, 0, 0,
                   defaults.conf, defaults.models, defaults.decks, defaults.dconf, "{}");
    var resNotes: seq<Note> := [];
    var resCards: seq<Card> := [];
    for i := 0 to |notes|
      invariant resNotes == seq(i, k requires 0 <= k < i => NoteAt(notes, k, unix, unixMilli, rand))
      invariant resCards == seq(i, k requires 0 <= k < i => CardAt(k, unix, unixMilli))
    {
      var note := notes[i];
      var n := Note(unixMilli + i, Itoa(rand(i)), 1, unix, unixMilli, "",
                    note.front + [FieldSeparator] + note.back, 0, unixMilli, 0, "");
      assert n == NoteAt(notes, i, unix, unixMilli, rand);
      resNotes := resNotes + [n];
      var c := Card(unixMilli + i, resNotes[i].id, 1, 0, unix, unixMilli, 0, 0, i,
                    0, 0, 0, 0, 0, 0, 0, 0, "");
      assert c == CardAt(i, unix, unixMilli);
      resCards := resCards + [c];
    }
    res := Anki2(resCards, col, [], resNotes, []);
  }

  /** One note and one card per input note; no graves and no review log. */
  lemma SimpleAnkiCounts(notes: seq<SimpleNote>, nowNanos: int, rand: nat -> nat, defaults: ColDefaults)
    ensures var a := SimpleAnki(notes, nowNanos, rand, defaults);
            |a.notes| == |notes| && |a.cards| == |notes| && a.graves == [] && a.revlog == []
  {
  }

  /** The collection row: id 1, version 11, empty tag cache, created at the second and modified
      at the millisecond of `nowNanos`. */
  lemma SimpleAnkiCol(notes: seq<SimpleNote>, nowNanos: int, rand: nat -> nat, defaults: ColDefaults)
    ensures var c := SimpleAnki(notes, nowNanos, rand, defaults).col;
            && c.id == 1 && c.ver == 11 && c.tags == "{}"
            && c.crt * NanosPerSecond <= nowNanos < (c.crt + 1) * NanosPerSecond
            && c.mod == c.scm
            && c.mod * NanosPerMilli <= nowNanos < (c.mod + 1) * NanosPerMilli
  {
  }

  /** Note ids are distinct and strictly increasing, every note uses model 1, and its fields
      hold the front and then the back. */
  lemma SimpleAnkiNotes(notes: seq<SimpleNote>, nowNanos: int, rand: nat -> nat, defaults: ColDefaults)
    ensures var a := SimpleAnki(notes, nowNanos, rand, defaults);
            && (forall i, j :: 0 <= i < j < |a.notes| ==> a.notes[i].id < a.notes[j].id)
            && (forall i :: 0 <= i < |a.notes| ==> a.notes[i].mid == 1 && a.notes[i].flds == Fields(notes[i]))
  {
  }

  /** Card `i` belongs to note `i`, sits in deck 1 and is due in position `i` (from 0). */
  lemma SimpleAnkiCards(notes: seq<SimpleNote>, nowNanos: int, rand: nat -> nat, defaults: ColDefaults)
    ensures var a := SimpleAnki(notes, nowNanos, rand, defaults);
            forall i :: 0 <= i < |a.cards| ==>
              i < |a.notes| && a.cards[i].nid == a.notes[i].id && a.cards[i].did == 1 && a.cards[i].due == i
  {
  }

  /** Each guid is the decimal text of that note's random draw. */
  lemma SimpleAnkiGuids(notes: seq<SimpleNote>, nowNanos: int, rand: nat -> nat, defaults: ColDefaults)
    ensures var a := SimpleAnki(notes, nowNanos, rand, defaults);
            forall i :: 0 <= i < |a.notes| ==> a.notes[i].guid == Itoa(rand(i))
  {
  }
}
