/**
 Turning a table from roles to addresses into a list from addresses to roles.
 */
module CollectionRoles {
  import opened Collections

  /** The role names with a flag of their own: ESDTRoleNFTCreate, ..., ESDTTransferRole; any other name has none. */
  datatype Role =
    | NFTCreate
    | NFTBurn
    | NFTAddQuantity
    | NFTAddURI
    | NFTUpdateAttributes
    | ESDTTransfer
    | Other(name: string)

  /** One role with the addresses listed under it. */
  datatype Row = Row(role: Role, addresses: seq<string>)

  datatype AddressRoles = AddressRoles(
    address: string,
    roles: seq<Role>,
    canCreate: bool,
    canBurn: bool,
    canAddQuantity: bool,
    canAddUri: bool,
    canUpdateAttributes: bool,
    canTransfer: bool)

  function SetCollectionRole(a: AddressRoles, role: Role): AddressRoles {
    var a := a.(roles := a.roles + [role]);
    match role
    case NFTCreate => a.(canCreate := true)
    case NFTBurn => a.(canBurn := true)
    case NFTAddQuantity => a.(canAddQuantity := true)
    case NFTAddURI => a.(canAddUri := true)
    case NFTUpdateAttributes => a.(canUpdateAttributes := true)
    case ESDTTransfer => a.(canTransfer := true)
    case Other(_) => a
  }

  // ----- the specification --------------------------------------------------------------------

  /** The addresses of the table, row after row. */
  function Listed(table: seq<Row>): seq<string> {
    if table == [] then [] else Listed(table[..|table| - 1]) + table[|table| - 1].addresses
  }

  /** The roles an address is listed under, in table order. */
  function RolesOf(table: seq<Row>, address: string): seq<Role> {
    if table == [] then []
    else
      RolesOf(table[..|table| - 1], address)
      + if address in table[|table| - 1].addresses then [table[|table| - 1].role] else []
  }

  /** An address with its roles; each flag says that its role is among them. */
  function Entry(address: string, roles: seq<Role>): AddressRoles {
    AddressRoles(address, roles, NFTCreate in roles, NFTBurn in roles, NFTAddQuantity in roles, NFTAddURI in roles,
        NFTUpdateAttributes in roles, ESDTTransfer in roles)
  }

  function EntriesFor(table: seq<Row>, addresses: seq<string>): (r: seq<AddressRoles>) {
    seq(|addresses|, i requires 0 <= i < |addresses| => Entry(addresses[i], RolesOf(table, addresses[i])))
  }

  function Transposed(table: seq<Row>): (r: seq<AddressRoles>) {
    EntriesFor(table, Distinct(Listed(table)))
  }

  lemma TableSnoc(table: seq<Row>, row: Row)
    ensures Listed(table + [row]) == Listed(table) + row.addresses
    ensures forall a :: RolesOf(table + [row], a) == RolesOf(table, a) + if a in row.addresses then [row.role] else []
  {
    assert (table + [row])[..|table|] == table;
  }

  lemma {:induction false} DistinctTwice(s: seq<string>, t: seq<string>)
    ensures Distinct(s + Distinct(t)) == Distinct(s + t)
    decreases |t|
  {
    if t != [] {
      var front, x := t[..|t| - 1], t[|t| - 1];
      DistinctTwice(s, front);
      assert s + t == (s + front) + [x];
      DistinctSnoc(s + front, x);
      DistinctFacts(front);
      if x !in front {
        assert s + Distinct(t) == (s + Distinct(front)) + [x];
        DistinctSnoc(s + Distinct(front), x);
      }
    }
  }

  ghost predicate Lists(table: seq<Row>, i: int, role: Role, address: string) {
    0 <= i < |table| && table[i].role == role && address in table[i].addresses
  }

  ghost predicate ListedUnder(table: seq<Row>, role: Role, address: string) {
    exists i :: Lists(table, i, role, address)
  }

  lemma ListedUnderSnoc(table: seq<Row>, row: Row, role: Role, address: string)
    ensures ListedUnder(table + [row], role, address) <==>
              ListedUnder(table, role, address) || (row.role == role && address in row.addresses)
  {
    var all := table + [row];
    if ListedUnder(table, role, address) {
      var i :| Lists(table, i, role, address);
      assert Lists(all, i, role, address);
    }
    if row.role == role && address in row.addresses { assert Lists(all, |table|, role, address); }
    if ListedUnder(all, role, address) {
      var i :| Lists(all, i, role, address);
      assert i < |table| ==> Lists(table, i, role, address);
    }
  }

  lemma {:induction false} RolesComeFromTable(table: seq<Row>, address: string)
    ensures RolesOf(table, address) == [] <==> address !in Listed(table)
    ensures forall r :: r in RolesOf(table, address) <==> ListedUnder(table, r, address)
  {
    if table != [] {
      var front, row := table[..|table| - 1], table[|table| - 1];
      assert table == front + [row];
      RolesComeFromTable(front, address);
      forall r ensures r in RolesOf(table, address) <==> ListedUnder(table, r, address) {
        ListedUnderSnoc(front, row, r, address);
      }
    }
  }

  lemma {:induction false} RolesAppearOnce(table: seq<Row>, address: string)
    requires forall i, j :: 0 <= i < j < |table| ==> table[i].role != table[j].role
    ensures forall i, j :: 0 <= i < j < |RolesOf(table, address)| ==>
              RolesOf(table, address)[i] != RolesOf(table, address)[j]
  {
    if table != [] {
      var front, row := table[..|table| - 1], table[|table| - 1];
      RolesAppearOnce(front, address);
      RolesComeFromTable(front, address);
      assert forall i :: 0 <= i < |front| ==> front[i] == table[i] && front[i].role != row.role;
      assert !ListedUnder(front, row.role, address);
      var earlier := RolesOf(front, address);
      assert row.role !in earlier && forall i :: 0 <= i < |earlier| ==> earlier[i] in earlier;
    }
  }

  // ----- results ------------------------------------------------------------------------------

  ghost predicate HasRole(result: seq<AddressRoles>, role: Role, address: string) {
    exists i :: 0 <= i < |result| && result[i].address == address && role in result[i].roles
  }

  /**
   The table is transposed exactly: an address has a role in the result iff it is listed under it,
   each address occurs once, in order of first appearance, no role is repeated, and each flag
   stands for its role.
   */
  lemma TransposedExactly(table: seq<Row>)
    requires forall i, j :: 0 <= i < j < |table| ==> table[i].role != table[j].role
    ensures forall r, a :: HasRole(Transposed(table), r, a) <==> ListedUnder(table, r, a)
    ensures |Transposed(table)| == |Distinct(Listed(table))| && NoRepetition(Distinct(Listed(table)))
    ensures forall i :: 0 <= i < |Transposed(table)| ==> Transposed(table)[i].address == Distinct(Listed(table))[i]
    ensures forall i :: 0 <= i < |Transposed(table)| ==>
              var e := Transposed(table)[i];
              && NoRepetition(e.roles)
              && e.canCreate == (NFTCreate in e.roles) && e.canBurn == (NFTBurn in e.roles) &&
                 e.canAddQuantity == (NFTAddQuantity in e.roles)
              && e.canAddUri == (NFTAddURI in e.roles) && e.canUpdateAttributes == (NFTUpdateAttributes in e.roles) &&
                 e.canTransfer == (ESDTTransfer in e.roles)
  {
    DistinctFacts(Listed(table));
    forall r, a ensures HasRole(Transposed(table), r, a) <==> ListedUnder(table, r, a) {
      RolesFound(table, r, a);
    }
    var addresses := Distinct(Listed(table));
    forall i | 0 <= i < |addresses| ensures NoRepetition(Transposed(table)[i].roles) {
      RolesAppearOnce(table, addresses[i]);
    }
  }

  lemma RolesFound(table: seq<Row>, r: Role, a: string)
    ensures HasRole(Transposed(table), r, a) <==> ListedUnder(table, r, a)
  {
    var addresses := Distinct(Listed(table));
    DistinctFacts(Listed(table));
    RolesComeFromTable(table, a);
    if ListedUnder(table, r, a) {
      var i :| 0 <= i < |addresses| && addresses[i] == a;
      assert r in Transposed(table)[i].roles;
    }
  }

  // ----- the code -----------------------------------------------------------------------------

  /** The index of the entry of an address, or the length of the list. */
  method FindAddress(allRoles: seq<AddressRoles>, address: string) returns (index: nat)
    ensures index <= |allRoles|
    ensures index < |allRoles| ==> allRoles[index].address == address
    ensures index == |allRoles| ==> forall i :: 0 <= i < |allRoles| ==> allRoles[i].address != address
  {
    index := 0;
    while index < |allRoles| && allRoles[index].address != address
      invariant index <= |allRoles|
      invariant forall i :: 0 <= i < index ==> allRoles[i].address != address
    {
      index := index + 1;
    }
  }

  /** One address of a row: its entry gets the role, and is created first if it is missing. */
  method AddRole(
      allRoles: seq<AddressRoles>, ghost table: seq<Row>, role: Role, ghost before: seq<string>, address: string)
    returns (updated: seq<AddressRoles>)
    requires address !in before && allRoles == Transposed(table + [Row(role, before)])
    ensures updated == Transposed(table + [Row(role, before + [address])])
  {
    var index := FindAddress(allRoles, address);
    if index < |allRoles| {
      AddressKnown(table, role, before, address, index);
      updated := allRoles[index := SetCollectionRole(allRoles[index], role)];
    } else {
      AddressNew(table, role, before, address);
      updated := allRoles + [SetCollectionRole(NewEntry(address), role)];
    }
  }

  method AddRow(allRoles: seq<AddressRoles>, ghost table: seq<Row>, row: Row) returns (updated: seq<AddressRoles>)
    requires allRoles == Transposed(table)
    ensures updated == Transposed(table + [row])
  {
    updated := allRoles;
    var addresses := Distinct(row.addresses);
    DistinctFacts(row.addresses);
    EmptyRow(table, row.role);
    for i := 0 to |addresses|
      invariant updated == Transposed(table + [Row(row.role, addresses[..i])])
    {
      assert addresses[..i + 1] == addresses[..i] + [addresses[i]];
      updated := AddRole(updated, table, row.role, addresses[..i], addresses[i]);
    }
    assert addresses[..|addresses|] == addresses;
    DistinctRow(table, row);
  }

  method GetNftCollectionRoles(table: seq<Row>) returns (allRoles: seq<AddressRoles>)
    ensures allRoles == Transposed(table)
  {
    allRoles := [];
    for r := 0 to |table|
      invariant allRoles == Transposed(table[..r])
    {
      allRoles := AddRow(allRoles, table[..r], table[r]);
      assert table[..r + 1] == table[..r] + [table[r]];
    }
    assert table[..|table|] == table;
  }

  lemma EmptyRow(table: seq<Row>, role: Role)
    ensures Transposed(table + [Row(role, [])]) == Transposed(table)
  {
    TableSnoc(table, Row(role, []));
    assert Listed(table) + [] == Listed(table);
    SameEntries(table + [Row(role, [])], table, Distinct(Listed(table)));
  }

  lemma DistinctRow(table: seq<Row>, row: Row)
    ensures Transposed(table + [Row(row.role, Distinct(row.addresses))]) == Transposed(table + [row])
  {
    TableSnoc(table, Row(row.role, Distinct(row.addresses)));
    TableSnoc(table, row);
    DistinctTwice(Listed(table), row.addresses);
    DistinctFacts(row.addresses);
    SameEntries(table + [Row(row.role, Distinct(row.addresses))], table + [row], Distinct(Listed(table + [row])));
  }

  lemma SameEntries(t0: seq<Row>, t1: seq<Row>, addresses: seq<string>)
    requires forall a :: RolesOf(t0, a) == RolesOf(t1, a)
    ensures EntriesFor(t0, addresses) == EntriesFor(t1, addresses)
  {
  }

  lemma EntrySnoc(address: string, roles: seq<Role>, role: Role)
    ensures SetCollectionRole(Entry(address, roles), role) == Entry(address, roles + [role])
  {
  }

  /** Adding an address to the last row updates its entry when it has one. */
  lemma AddressKnown(table: seq<Row>, role: Role, before: seq<string>, address: string, index: nat)
    requires address !in before
    requires var prior := Transposed(table + [Row(role, before)]); index < |prior| && prior[index].address == address
    ensures var prior := Transposed(table + [Row(role, before)]);
            Transposed(table + [Row(role, before + [address])]) == prior[index := SetCollectionRole(prior[index], role)]
  {
    var t0, t1 := table + [Row(role, before)], table + [Row(role, before + [address])];
    var addresses := Distinct(Listed(t0));
    assert addresses[index] == address;
    RolesAfter(table, role, before, address);
    DistinctFacts(Listed(t0));
    DistinctSnoc(Listed(t0), address);
    EntrySnoc(address, RolesOf(t0, address), role);
    EntryUpdated(t0, t1, addresses, address, index, role);
  }

  /** Adding a new address to the last row appends an entry. */
  lemma AddressNew(table: seq<Row>, role: Role, before: seq<string>, address: string)
    requires address !in before
    requires var prior := Transposed(table + [Row(role, before)]);
             forall i :: 0 <= i < |prior| ==> prior[i].address != address
    ensures var prior := Transposed(table + [Row(role, before)]);
            Transposed(table + [Row(role, before + [address])]) == prior + [SetCollectionRole(NewEntry(address), role)]
  {
    var t0, t1 := table + [Row(role, before)], table + [Row(role, before + [address])];
    var addresses := Distinct(Listed(t0));
    assert forall i :: 0 <= i < |addresses| ==> Transposed(t0)[i].address == addresses[i];
    RolesAfter(table, role, before, address);
    DistinctFacts(Listed(t0));
    DistinctSnoc(Listed(t0), address);
    RolesComeFromTable(t0, address);
    EntrySnoc(address, [], role);
    EntryAppended(t0, t1, addresses, address, role);
  }

  function NewEntry(address: string): AddressRoles {
    AddressRoles(address, [], false, false, false, false, false, false)
  }

  lemma RolesAfter(table: seq<Row>, role: Role, before: seq<string>, address: string)
    requires address !in before
    ensures var t0, t1 := table + [Row(role, before)], table + [Row(role, before + [address])];
            && Listed(t1) == Listed(t0) + [address]
            && RolesOf(t1, address) == RolesOf(t0, address) + [role]
            && forall a :: a != address ==> RolesOf(t1, a) == RolesOf(t0, a)
  {
    TableSnoc(table, Row(role, before));
    TableSnoc(table, Row(role, before + [address]));
    assert RolesOf(table, address) + [] == RolesOf(table, address);
  }

  lemma EntryUpdated(t0: seq<Row>, t1: seq<Row>, addresses: seq<string>, address: string, index: nat, role: Role)
    requires NoRepetition(addresses) && RolesOf(t1, address) == RolesOf(t0, address) + [role]
    requires forall a :: a != address ==> RolesOf(t1, a) == RolesOf(t0, a)
    requires index < |addresses| && addresses[index] == address
    ensures EntriesFor(t1, addresses) ==
              EntriesFor(t0, addresses)[index := Entry(address, RolesOf(t0, address) + [role])]
  {
  }

  lemma EntryAppended(t0: seq<Row>, t1: seq<Row>, addresses: seq<string>, address: string, role: Role)
    requires address !in addresses && RolesOf(t1, address) == [role]
    requires forall a :: a != address ==> RolesOf(t1, a) == RolesOf(t0, a)
    ensures EntriesFor(t1, addresses + [address]) == EntriesFor(t0, addresses) + [Entry(address, [role])]
  {
  }
}
