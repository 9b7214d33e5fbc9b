/**
 Reading the answer of `getAllAddressesAndRoles`: addresses, each followed by its roles, with
 null for an address that could not be read.
 */
module TokenRoleStream {
  import opened Collections

  /** The role names with a flag of their own, ESDTRoleLocalMint and ESDTRoleLocalBurn; any other name has none. */
  datatype Role = LocalMint | LocalBurn | Other(name: string)

  /** One decoded value of the stream. */
  datatype Value = AddressValue(address: string) | NullValue | RoleValue(role: Role)

  datatype TokenRoles = TokenRoles(address: Option<string>, roles: seq<Role>, canLocalMint: bool, canLocalBurn: bool)

  function NewRoles(address: Option<string>): TokenRoles {
    TokenRoles(address, [], false, false)
  }

  function SetTokenRole(t: TokenRoles, role: Role): TokenRoles {
    var t := t.(roles := t.roles + [role]);
    if role == LocalMint then t.(canLocalMint := true)
    else if role == LocalBurn then t.(canLocalBurn := true)
    else t
  }

  // ----- the specification --------------------------------------------------------------------

  /** An address with its roles; each flag says that its role is among them. */
  function Entry(address: string, roles: seq<Role>): TokenRoles {
    TokenRoles(Some(address), roles, LocalMint in roles, LocalBurn in roles)
  }

  /** The roles at the head of a stream, up to the next address or null. */
  function LeadingRoles(values: seq<Value>): (roles: seq<Role>)
    ensures |roles| <= |values|
    ensures forall i :: 0 <= i < |roles| ==> values[i] == RoleValue(roles[i])
    ensures |roles| < |values| ==> !values[|roles|].RoleValue?
  {
    if values == [] || !values[0].RoleValue? then [] else [values[0].role] + LeadingRoles(values[1..])
  }

  /** Each address takes the roles that directly follow it; other roles are dropped. */
  function Parse(values: seq<Value>): seq<TokenRoles> {
    if values == [] then []
    else if values[0].AddressValue? then [Entry(values[0].address, LeadingRoles(values[1..]))] + Parse(values[1..])
    else Parse(values[1..])
  }

  /** What is still to come when `current` is being filled and `rest` is unread. */
  function Completed(current: Option<TokenRoles>, rest: seq<Value>): seq<TokenRoles> {
    (if current.Some? &&
     current.value.address.Some? then [Entry(current.value.address.value, current.value.roles +
         LeadingRoles(rest))] else [])
    + Parse(rest)
  }

  ghost predicate FlagsAgree(t: TokenRoles) {
    t.canLocalMint == (LocalMint in t.roles) && t.canLocalBurn == (LocalBurn in t.roles)
  }

  lemma ReadHeader(current: Option<TokenRoles>, value: Value, rest: seq<Value>)
    requires !value.RoleValue? && (current.Some? ==> FlagsAgree(current.value))
    ensures var next := Some(NewRoles(if value.AddressValue? then Some(value.address) else None));
            Completed(current, [value] + rest) ==
            (if current.Some? && current.value.address.Some? then [current.value] else []) + Completed(next, rest)
  {
    var values := [value] + rest;
    assert values[1..] == rest;
    if current.Some? {
      assert current.value.roles + LeadingRoles(values) == current.value.roles;
    }
    if value.AddressValue? {
      assert [] + LeadingRoles(rest) == LeadingRoles(rest);
    }
  }

  lemma ReadRole(current: Option<TokenRoles>, role: Role, rest: seq<Value>)
    ensures Completed(current, [RoleValue(role)] + rest) ==
            Completed(Some(SetTokenRole(if current.Some? then current.value else NewRoles(None), role)), rest)
  {
    var values := [RoleValue(role)] + rest;
    assert values[1..] == rest;
    if current.Some? {
      assert current.value.roles + LeadingRoles(values) == current.value.roles + [role] + LeadingRoles(rest);
    }
  }

  /** What has been read is kept in front of what is still to come. */
  lemma ReadOneMore(result: seq<TokenRoles>, current: Option<TokenRoles>, value: Value, rest: seq<Value>)
    requires !value.RoleValue? && (current.Some? ==> FlagsAgree(current.value))
    ensures var next := Some(NewRoles(if value.AddressValue? then Some(value.address) else None));
            var emitted := if current.Some? && current.value.address.Some? then [current.value] else [];
            result + Completed(current, [value] + rest) == (result + emitted) + Completed(next, rest)
  {
    ReadHeader(current, value, rest);
  }

  // ----- the code -----------------------------------------------------------------------------

  method ProcessEncodedAddressesAndRoles(values: seq<Value>) returns (result: seq<TokenRoles>)
    ensures result == Parse(values)
  {
    result := [];
    var currentRole: Option<TokenRoles> := None;
    for i := 0 to |values|
      invariant currentRole.Some? ==> FlagsAgree(currentRole.value)
      invariant result + Completed(currentRole, values[i..]) == Parse(values)
    {
      var value := values[i];
      assert values[i..] == [value] + values[i + 1..];
      if !value.RoleValue? {
        ReadOneMore(result, currentRole, value, values[i + 1..]);
        if currentRole.Some? && currentRole.value.address.Some? {
          result := result + [currentRole.value];
        } else {
          assert result + [] == result;
        }
        currentRole := Some(NewRoles(if value.AddressValue? then Some(value.address) else None));
      } else {
        ReadRole(currentRole, value.role, values[i + 1..]);
        if currentRole.None? {
          currentRole := Some(NewRoles(None));
        }
        currentRole := Some(SetTokenRole(currentRole.value, value.role));
      }
    }
    if currentRole.Some? && currentRole.value.address.Some? {
      assert currentRole.value.roles + [] == currentRole.value.roles;
      result := result + [currentRole.value];
    }
  }

  // ----- results ------------------------------------------------------------------------------

  datatype Grant = Grant(address: string, roles: seq<Role>)

  function RoleValues(roles: seq<Role>): seq<Value> {
    seq(|roles|, i requires 0 <= i < |roles| => RoleValue(roles[i]))
  }

  function Flatten(grants: seq<Grant>): seq<Value> {
    if grants == [] then [] else [AddressValue(grants[0].address)] + RoleValues(grants[0].roles) + Flatten(grants[1..])
  }

  function Entries(grants: seq<Grant>): (r: seq<TokenRoles>) {
    seq(|grants|, i requires 0 <= i < |grants| => Entry(grants[i].address, grants[i].roles))
  }

  lemma {:induction false} RolesAreSkipped(roles: seq<Role>, rest: seq<Value>)
    ensures Parse(RoleValues(roles) + rest) == Parse(rest)
    ensures rest == [] || !rest[0].RoleValue? ==> LeadingRoles(RoleValues(roles) + rest) == roles
    decreases |roles|
  {
    if roles == [] {
      assert RoleValues(roles) + rest == rest;
    } else {
      assert (RoleValues(roles) + rest)[1..] == RoleValues(roles[1..]) + rest;
      RolesAreSkipped(roles[1..], rest);
    }
  }

  lemma ReadGrant(g: Grant, rest: seq<Value>)
    requires rest == [] || !rest[0].RoleValue?
    ensures Parse([AddressValue(g.address)] + RoleValues(g.roles) + rest) == [Entry(g.address, g.roles)] + Parse(rest)
  {
    var values := [AddressValue(g.address)] + RoleValues(g.roles) + rest;
    assert values[1..] == RoleValues(g.roles) + rest;
    RolesAreSkipped(g.roles, rest);
  }

  /** Reading back the flattened form of any list of grants gives that list, with the flags of its roles. */
  lemma RoundTrip(grants: seq<Grant>)
    ensures |Parse(Flatten(grants))| == |grants|
    ensures forall i :: 0 <= i < |grants| ==>
              var t := Parse(Flatten(grants))[i];
              && t.address == Some(grants[i].address) && t.roles == grants[i].roles
              && (t.canLocalMint <==> LocalMint in grants[i].roles)
              && (t.canLocalBurn <==> LocalBurn in grants[i].roles)
  {
    FlattenedIsRead(grants);
  }

  lemma {:induction false} FlattenedIsRead(grants: seq<Grant>)
    ensures Parse(Flatten(grants)) == Entries(grants)
  {
    if grants != [] {
      ReadGrant(grants[0], Flatten(grants[1..]));
      FlattenedIsRead(grants[1..]);
    }
  }

  lemma {:induction false} LeadingRolesCut(s: seq<Value>, t: seq<Value>)
    requires t == [] || !t[0].RoleValue?
    ensures LeadingRoles(s + t) == LeadingRoles(s)
    decreases |s|
  {
    if s == [] {
      assert s + t == t;
    } else {
      assert (s + t)[1..] == s[1..] + t;
      LeadingRolesCut(s[1..], t);
    }
  }

  /** Reading distributes over concatenation at any address or null. */
  lemma {:induction false} Distributes(s: seq<Value>, t: seq<Value>)
    requires t == [] || !t[0].RoleValue?
    ensures Parse(s + t) == Parse(s) + Parse(t)
    decreases |s|
  {
    if s == [] {
      assert s + t == t;
    } else {
      assert (s + t)[1..] == s[1..] + t;
      LeadingRolesCut(s[1..], t);
      Distributes(s[1..], t);
    }
  }

  lemma NullIsSkipped(values: seq<Value>)
    ensures Parse([NullValue] + values) == Parse(values)
  {
    assert ([NullValue] + values)[1..] == values;
  }

  /** Roles before the first address leave no trace. */
  lemma LeadingRolesDropped(roles: seq<Role>, t: seq<Value>)
    ensures Parse(RoleValues(roles) + t) == Parse(t)
  {
    RolesAreSkipped(roles, t);
  }

  /** Roles after a null leave no trace. */
  lemma NulledRolesDropped(roles: seq<Role>, s: seq<Value>, t: seq<Value>)
    ensures Parse(s + ([NullValue] + (RoleValues(roles) + t))) == Parse(s) + Parse(t)
  {
    var tail := RoleValues(roles) + t;
    RolesAreSkipped(roles, t);
    NullIsSkipped(tail);
    Distributes(s, [NullValue] + tail);
  }
}
