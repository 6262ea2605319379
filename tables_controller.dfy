/**
 * The tables controller: the two checks of the create chain, the insert
 * they guard, the existence check, and the list handler's sort by name.
 */
module TablesController {
  import opened Middleware
  import opened Text
  import opened Sorting

  /** A table as a request body or a row of the `tables` table. */
  datatype Table = Table(table_id: Option<int>, table_name: Option<string>, capacity: Value)

  const InvalidTableMessage: string := "Invalid data provided. Requires {string: table_name, number: capacity}"
  const TableNotFoundMessage: string := "Table cannot be found."

  /** Both properties the required-properties check lists are truthy. */
  predicate RequiredPresent(body: Table) {
    Present(body.table_name) && Truthy(body.capacity)
  }

  /** hasAllValidProperties: a name and a capacity, both truthy. */
  function HasAllValidProperties(body: Table): (r: Outcome)
    ensures r == Pass || r == MissingProperties
    ensures r == Pass <==> body.table_name.Some? && body.table_name.value != "" && Truthy(body.capacity)
  {
    if RequiredPresent(body) then Pass else MissingProperties
  }

  /** hasValidTableData: a name of at least two characters and a positive numeric capacity. */
  function HasValidTableData(body: Table): (r: Outcome)
    ensures body.table_name.None? ==> r == Thrown
    ensures body.table_name.Some? ==>
      && (r == Pass <==> |body.table_name.value| >= 2 && body.capacity.Num? && body.capacity.n > 0.0)
      && (r != Pass ==> r == Fail(400, InvalidTableMessage))
  {
    if body.table_name.None? then Thrown
    else
      var tableNameIsValid := |body.table_name.value| > 1;
      var capacityIsValid := body.capacity.Num? && body.capacity.n > 0.0;
      if tableNameIsValid && capacityIsValid then Pass
      else Fail(400, InvalidTableMessage)
  }

  /** POST /tables, before the insert. */
  function CreateChecks(body: Table): Outcome {
    Run([HasAllValidProperties(body), HasValidTableData(body)])
  }

  /** The create chain runs the required-properties check first and the data check second. */
  lemma CreateInOrder(body: Table)
    ensures CreateChecks(body) ==
      if HasAllValidProperties(body) != Pass then HasAllValidProperties(body) else HasValidTableData(body)
  {
    var a, b := HasAllValidProperties(body), HasValidTableData(body);
    assert [a, b] == [a] + ([b] + []);
    RunCons(a, [b] + []);
    RunCons(b, []);
  }

  /**
   * A table is accepted exactly when its name has at least two characters
   * and its capacity is a number above zero: the required-properties check
   * never rejects a body the data check accepts.
   */
  lemma CreateAcceptsIff(body: Table)
    ensures CreateChecks(body) == Pass <==>
      body.table_name.Some? && |body.table_name.value| >= 2 && body.capacity.Num? && body.capacity.n > 0.0
  {
    CreateInOrder(body);
  }

  /** What the insert answers: the stored row, or the error of the first failing check. */
  datatype TableResponse = Created(table: Table) | Rejected(error: Outcome)

  /**
   * POST /tables over the rows stored so far: the insert happens only when
   * both checks pass, and then appends the body under the next id.
   */
  function Create(tables: seq<Table>, body: Table): (result: (seq<Table>, TableResponse))
    ensures CreateChecks(body) != Pass ==> result.0 == tables && result.1 == Rejected(CreateChecks(body))
    ensures CreateChecks(body) == Pass ==>
      && |result.0| == |tables| + 1 && result.0[..|tables|] == tables
      && result.1.Created? && result.0[|tables|] == result.1.table
      && result.1.table.table_name == body.table_name && result.1.table.capacity == body.capacity
  {
    var outcome := CreateChecks(body);
    if outcome != Pass then (tables, Rejected(outcome))
    else
      var row := body.(table_id := Some(|tables| + 1));
      (tables + [row], Created(row))
  }

  /** What `service.read` resolves to: the array of matching rows, or no value at all. */
  datatype ReadResult = Rows(found: seq<Table>) | NoValue

  /** `service.read(table_id)`: a query that always resolves to an array, possibly empty. */
  function Read(tables: seq<Table>, id: int): ReadResult {
    Rows(Filter(tables, (t: Table) => t.table_id == Some(id)))
  }

  /** tableExists: fails only when the read resolves to a falsy value; any array is truthy. */
  function TableExists(read: ReadResult): (r: Outcome)
    ensures r == Pass <==> read.Rows?
    ensures r != Pass ==> r == Fail(404, TableNotFoundMessage)
  {
    if read.Rows? then Pass else Fail(404, TableNotFoundMessage)
  }

  /** Because the read always yields an array, the existence check passes even for an id no row has. */
  lemma TableExistsNeverFails(tables: seq<Table>, id: int)
    ensures TableExists(Read(tables, id)) == Pass
    ensures (forall i :: 0 <= i < |tables| ==> tables[i].table_id != Some(id)) ==>
      Read(tables, id) == Rows([])
  {
    if forall i :: 0 <= i < |tables| ==> tables[i].table_id != Some(id) {
      FilterNone(tables, (t: Table) => t.table_id == Some(id));
    }
  }

  /** Every table carries a name. */
  predicate AllNamed(tables: seq<Table>) {
    forall i :: 0 <= i < |tables| ==> tables[i].table_name.Some?
  }

  /** Tables stored through the create chain keep every table named. */
  lemma CreateKeepsNamed(tables: seq<Table>, body: Table)
    requires AllNamed(tables)
    ensures AllNamed(Create(tables, body).0)
  {
    var stored := Create(tables, body).0;
    if CreateChecks(body) == Pass {
      CreateAcceptsIff(body);
      forall i | 0 <= i < |stored| ensures stored[i].table_name.Some? {
        if i < |tables| { assert stored[i] == stored[..|tables|][i]; }
      }
    }
  }

  /** The sort key of `list`; it is only applied to named tables. */
  function NameKey(t: Table): string {
    t.table_name.GetOr("")
  }

  /**
   * GET /tables: the fetched rows rearranged into name order. When there
   * are rows to sort, the comparator reads the name of every table it is
   * given, so the tables must all carry one, as every table the create
   * chain stores does (`CreateKeepsNamed`).
   */
  function List(fetched: seq<Table>): (data: seq<Table>)
    requires |fetched| > 1 ==> AllNamed(fetched)
    ensures multiset(data) == multiset(fetched)
    ensures SortedBy(data, NameKey)
  {
    if |fetched| > 1 then SortBy(fetched, NameKey) else fetched
  }
}
