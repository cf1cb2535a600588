/**
 * `get_resources`: one lookup by id and address when both query parameters
 * are truthy, the whole `resources` table otherwise.
 */
module Resources {
  import opened PyValues
  import opened Sql

  /** A row of the `resources` table: its id, its address (`pc`) and the
      other columns. */
  datatype Row = Row(id: int, pc: string, rest: seq<Value>)

  /** The response body: `{"resource": row or None}` for the lookup,
      `{"resources": rows}` for the listing. */
  datatype Reply = Single(resource: Option<Row>) | Listing(resources: seq<Row>)

  /** `if id and pc`: an absent parameter is None; id 0 and the empty address
      are false as well. */
  predicate Filtered(id: Option<int>, pc: Option<string>) {
    && id.Some? && Truthy(Int(id.value))
    && pc.Some? && Truthy(Str(pc.value))
  }

  /** The query `get_resources` executes: the lookup binds the id and the
      address, the listing binds nothing. */
  function ResourcesCommand(id: Option<int>, pc: Option<string>): (c: Command)
    ensures Filtered(id, pc) ==> c.params == [Int(id.value), Str(pc.value)]
    ensures !Filtered(id, pc) ==> c.params == []
    ensures Filtered(id, pc) <==> c.text == LookupText
    ensures !Filtered(id, pc) <==> c.text == ListText
  {
    if id.Some? && id.value != 0 && pc.Some? && pc.value != "" then
      Command(LookupText, [Int(id.value), Str(pc.value)])
    else
      Command(ListText, [])
  }

  const LookupText: string := IdClause + "%s" + PcClause + "%s"
  const IdClause: string := "SELECT * FROM resources WHERE id = "
  const PcClause: string := " AND pc = "
  const ListText: string := "SELECT * FROM resources"

  /** Both texts have one slot per parameter. */
  lemma ResourcesCommandWellBound(id: Option<int>, pc: Option<string>)
    ensures WellBound(ResourcesCommand(id, pc))
  {
    if Filtered(id, pc) {
      PlaceholdersLookup();
    } else {
      PlaceholdersPlain(ListText);
    }
  }

  /** The lookup text has two slots, one for the id and one for the address. */
  lemma PlaceholdersLookup()
    ensures Placeholders(LookupText) == 2
  {
    ClausesPlain();
    assert LookupText == IdClause + "%s" + (PcClause + "%s" + "");
    PlaceholdersPlainSlot(IdClause, PcClause + "%s" + "");
    PlaceholdersPlainSlot(PcClause, "");
  }

  lemma ClausesPlain()
    ensures '%' !in IdClause && '%' !in PcClause
  {
  }

  predicate Matches(row: Row, id: int, pc: string) {
    row.id == id && row.pc == pc
  }

  /** The row `fetchone` returns: the first matching row of the table as the
      database hands it over, or None. */
  function FirstMatch(table: seq<Row>, id: int, pc: string): (r: Option<Row>)
    ensures r.None? <==> forall j :: 0 <= j < |table| ==> !Matches(table[j], id, pc)
    ensures r.Some? ==> r.value in table && Matches(r.value, id, pc)
    decreases |table|
  {
    if table == [] then None
    else if Matches(table[0], id, pc) then Some(table[0])
    else
      var r := FirstMatch(table[1..], id, pc);
      assert forall j :: 1 <= j < |table| ==> table[j] == table[1..][j - 1];
      r
  }

  /** `get_resources` over the rows of the `resources` table: the lookup
      exactly when both parameters are truthy, and then a matching row or
      None when no row matches; otherwise every row. */
  function GetResources(id: Option<int>, pc: Option<string>, table: seq<Row>): (r: Reply)
    ensures r.Single? <==> Filtered(id, pc)
    ensures r.Listing? ==> r.resources == table
    ensures r.Single? ==>
              (r.resource.None? <==> forall j :: 0 <= j < |table| ==> !Matches(table[j], id.value, pc.value))
    ensures r.Single? && r.resource.Some? ==>
              r.resource.value in table && Matches(r.resource.value, id.value, pc.value)
  {
    if id.Some? && id.value != 0 && pc.Some? && pc.value != "" then
      Single(FirstMatch(table, id.value, pc.value))
    else
      Listing(table)
  }

  /** Id 0 is false, so it lists the whole table whatever the address. */
  lemma ZeroIdListsAll(pc: Option<string>, table: seq<Row>)
    ensures GetResources(Some(0), pc, table) == Listing(table)
    ensures ResourcesCommand(Some(0), pc).params == []
  {
  }

  /** The empty address is false as well: the web client's initial form
      (id 1, empty address) lists the whole table. */
  lemma EmptyAddressListsAll(id: Option<int>, table: seq<Row>)
    ensures GetResources(id, Some(""), table) == Listing(table)
    ensures ResourcesCommand(id, Some("")) == Command(ListText, [])
  {
  }
}
