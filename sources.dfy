/** The sources table. `Add` inserts a row with a fresh serial id; `Sources`
    reads every row back without selecting the id column, so every source
    it returns carries id 0. */
module Sources {
  import opened Wrappers
  import opened Models
  import opened Rows
  import opened Telegram
  import opened Service

  /** A row of `sources`; `id` is filled in by the serial sequence. */
  datatype SourceRow = SourceRow(id: int, name: string, feedUrl: string, priority: int, createdAt: Time)

  datatype SourceTable = SourceTable(rows: seq<SourceRow>, nextId: int)

  /** `INSERT INTO sources(name, feed_url, priority, created_at)`: the id of
      the source passed in is ignored and the next serial value is used.
      Nothing prevents two rows with the same name or feed url. */
  function Insert(t: SourceTable, s: Source): (r: SourceTable)
    ensures r.rows == t.rows + [SourceRow(t.nextId, s.name, s.feedUrl, s.priority, s.createdAt)]
    ensures r.nextId == t.nextId + 1
  {
    SourceTable(t.rows + [SourceRow(t.nextId, s.name, s.feedUrl, s.priority, s.createdAt)], t.nextId + 1)
  }

  /** The columns `SELECT name, feed_url, priority, created_at` scans into a
      zero `models.Source`. */
  function SourceOf(row: SourceRow): (s: Source)
    ensures s.id == 0 && s.name == row.name && s.feedUrl == row.feedUrl
    ensures s.priority == row.priority && s.createdAt == row.createdAt
  {
    Source(0, row.name, row.feedUrl, row.priority, row.createdAt)
  }

  function SelectAll(rows: seq<SourceRow>): (r: seq<Source>)
    ensures |r| == |rows|
    ensures forall i :: 0 <= i < |rows| ==>
              r[i].name == rows[i].name && r[i].feedUrl == rows[i].feedUrl
              && r[i].priority == rows[i].priority && r[i].createdAt == rows[i].createdAt
  {
    seq(|rows|, i requires 0 <= i < |rows| => SourceOf(rows[i]))
  }

  /** Sources returns the rows in table order on success, and every source
      it returns has id 0, whatever id the row has. */
  lemma SourcesHaveNoId(rows: seq<SourceRow>, f: RowsFault)
    ensures var r := Collect(SelectAll(rows), f, true);
            r.Success? ==> r.value == SelectAll(rows) && forall s :: s in r.value ==> s.id == 0
  {
  }

  /** Hence every button of the `/addsource` menu built from what Sources
      returns carries the same callback data "source_add:0". */
  lemma {:induction false} MenuButtonsAllZero(rows: seq<SourceRow>, f: RowsFault)
    ensures var r := Collect(SelectAll(rows), f, true);
            r.Success? ==> forall s :: s in r.value ==> EncodeAddSource(s.id) == "source_add:0"
  {
    var r := Collect(SelectAll(rows), f, true);
    if r.Success? {
      forall s | s in r.value ensures EncodeAddSource(s.id) == "source_add:0" {
        assert s in SelectAll(rows);
        assert s.id == 0;
        assert Strconv.FormatInt(0) == "0";
      }
    }
  }

  /** And pressing any of them subscribes the user to source 0, not to the
      source whose name the button shows. */
  lemma PressingAnyMenuButtonSubscribesToZero(rows: seq<SourceRow>, f: RowsFault, i: int, chatId: int,
                                              subsErr: Option<Error>, sendErr: Option<Error>)
    requires Collect(SelectAll(rows), f, true).Success?
    requires 0 <= i < |Collect(SelectAll(rows), f, true).value|
    ensures var s := Collect(SelectAll(rows), f, true).value[i];
            var r := CallbackAddSource(CallbackQuery(EncodeAddSource(s.id), chatId), subsErr, sendErr);
            |r.effects| >= 1 && r.effects[0] == AddSubscription(chatId, 0)
  {
    var s := Collect(SelectAll(rows), f, true).value[i];
    MenuButtonsAllZero(rows, f);
    assert s in Collect(SelectAll(rows), f, true).value;
    ParseEncodeAddSource(s.id);
  }

  class SourceRepository {
    var rows: seq<SourceRow>
    var nextId: int

    function Table(): SourceTable
      reads this
    {
      SourceTable(rows, nextId)
    }

    constructor (initial: SourceTable)
      ensures Table() == initial
    {
      rows := initial.rows;
      nextId := initial.nextId;
    }

    /** `Add`: the database error is returned unchanged, otherwise nil. */
    method Add(source: Source, dbErr: Option<Error>) returns (err: Option<Error>)
      modifies this
      ensures err == dbErr
      ensures Table() == if dbErr.Some? then old(Table()) else Insert(old(Table()), source)
    {
      if dbErr.Some? {
        return dbErr;
      }
      var t := Insert(Table(), source);
      rows, nextId := t.rows, t.nextId;
      err := None;
    }

    /** `Sources`: every row without its id, checking `rows.Err()`. */
    method Sources(f: RowsFault) returns (r: Result<seq<Source>, Error>)
      ensures r == Collect(SelectAll(rows), f, true)
    {
      r := ScanRows(SelectAll(rows), f, true);
    }
  }
}
