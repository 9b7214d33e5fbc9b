/**
 Reading the flat answer of `getAllNodeStates`: status names, each followed by the keys of the
 nodes in that state. `decode` stands for the base64 decoding of an entry.
 */
module AccountKeys {

  const NOT_STAKED := "notStaked"
  const STATUSES := {"staked", "jailed", "queued", "unStaked", "notStaked"}

  predicate IsStatus(decode: string -> string, entry: string) {
    decode(entry) in STATUSES
  }

  // ----- the code: a reduce that looks ahead at every status ----------------------------------

  /** The index of the first status after `i`, if any. */
  function NextStatus(decode: string -> string, states: seq<string>, i: nat): (n: nat)
    requires i < |states|
    ensures i < n <= |states| && (n < |states| ==> IsStatus(decode, states[n]))
    ensures forall k :: i < k < n ==> !IsStatus(decode, states[k])
    decreases |states| - i
  {
    FirstStatus(decode, states, i + 1)
  }

  function FirstStatus(decode: string -> string, states: seq<string>, i: nat): (n: nat)
    requires i <= |states|
    ensures i <= n <= |states| && (n < |states| ==> IsStatus(decode, states[n]))
    ensures forall k :: i <= k < n ==> !IsStatus(decode, states[k])
    decreases |states| - i
  {
    if i == |states| || IsStatus(decode, states[i]) then i else FirstStatus(decode, states, i + 1)
  }

  function Reduce(decode: string -> string, states: seq<string>, i: nat, totalNodes: seq<string>): seq<string>
    requires i <= |states|
    decreases |states| - i
  {
    if i == |states| then totalNodes
    else if IsStatus(decode, states[i]) && decode(states[i]) == NOT_STAKED then
      Reduce(decode, states, i + 1, totalNodes + states[i + 1..NextStatus(decode, states, i)])
    else Reduce(decode, states, i + 1, totalNodes)
  }

  function GetInactiveNodesBuffers(decode: string -> string, states: seq<string>): seq<string> {
    Reduce(decode, states, 0, [])
  }

  // ----- a one-pass parser --------------------------------------------------------------------

  /** `open` says that the status read last was notStaked. */
  function OnePass(decode: string -> string, states: seq<string>, open: bool): seq<string> {
    if states == [] then []
    else if IsStatus(decode, states[0]) then OnePass(decode, states[1..], decode(states[0]) == NOT_STAKED)
    else (if open then [states[0]] else []) + OnePass(decode, states[1..], open)
  }

  /** An open pass yields the entries up to the next status and then does what a closed one does. */
  lemma {:induction false} OpenPass(decode: string -> string, states: seq<string>, i: nat)
    requires i <= |states|
    ensures OnePass(decode, states[i..], true) ==
              states[i..FirstStatus(decode, states, i)] + OnePass(decode, states[i..], false)
    decreases |states| - i
  {
    if i < |states| && !IsStatus(decode, states[i]) {
      OpenPass(decode, states, i + 1);
      assert states[i..][1..] == states[i + 1..];
      var n := FirstStatus(decode, states, i);
      assert states[i..n] == [states[i]] + states[i + 1..n];
    }
  }

  lemma {:induction false} ReduceIsOnePass(
      decode: string -> string, states: seq<string>, i: nat, totalNodes: seq<string>)
    requires i <= |states|
    ensures Reduce(decode, states, i, totalNodes) == totalNodes + OnePass(decode, states[i..], false)
    decreases |states| - i
  {
    if i < |states| {
      assert states[i..][1..] == states[i + 1..];
      if IsStatus(decode, states[i]) && decode(states[i]) == NOT_STAKED {
        ReduceIsOnePass(decode, states, i + 1, totalNodes + states[i + 1..NextStatus(decode, states, i)]);
        OpenPass(decode, states, i + 1);
      } else {
        ReduceIsOnePass(decode, states, i + 1, totalNodes);
      }
    }
  }

  /** The look-ahead reduce computes what a single pass does. */
  lemma LookAheadIsOnePass(decode: string -> string, states: seq<string>)
    ensures GetInactiveNodesBuffers(decode, states) == OnePass(decode, states, false)
  {
    ReduceIsOnePass(decode, states, 0, []);
    assert states[0..] == states;
  }

  // ----- what is kept -------------------------------------------------------------------------

  ghost predicate NamesStatus(name: string) {
    name == "staked" || name == "jailed" || name == "queued" || name == "unStaked" || name == "notStaked"
  }

  /** A node key whose nearest preceding status is notStaked. */
  ghost predicate Kept(decode: string -> string, states: seq<string>, i: int) {
    0 <= i < |states| && !NamesStatus(decode(states[i])) && OpenAt(decode, states, i)
  }

  ghost function KeptUpTo(decode: string -> string, states: seq<string>, n: nat): seq<string>
    requires n <= |states|
  {
    if n == 0 then [] else KeptUpTo(decode, states, n - 1) + if Kept(decode, states, n - 1) then [states[n - 1]] else []
  }

  /** Entry `j` is a notStaked status and no other status lies between `j` and `i`. */
  ghost predicate OpenedBy(decode: string -> string, states: seq<string>, j: int, i: int) {
    0 <= j < i && j < |states| && decode(states[j]) == "notStaked" && forall k :: j < k < i && k < |states| ==>
      !NamesStatus(decode(states[k]))
  }

  ghost predicate OpenAt(decode: string -> string, states: seq<string>, i: int) {
    exists j :: OpenedBy(decode, states, j, i)
  }

  lemma OpenNext(decode: string -> string, states: seq<string>, i: nat)
    requires i < |states|
    ensures OpenAt(decode, states, i + 1) <==>
              if IsStatus(decode, states[i]) then decode(states[i]) == NOT_STAKED else OpenAt(decode, states, i)
  {
    if !IsStatus(decode, states[i]) && OpenAt(decode, states, i) {
      var j :| OpenedBy(decode, states, j, i);
      assert OpenedBy(decode, states, j, i + 1);
    }
    if decode(states[i]) == NOT_STAKED {
      assert OpenedBy(decode, states, i, i + 1);
    }
    if OpenAt(decode, states, i + 1) {
      var j :| OpenedBy(decode, states, j, i + 1);
      assert j < i ==> OpenedBy(decode, states, j, i);
    }
  }

  lemma {:induction false} OnePassKeeps(decode: string -> string, states: seq<string>, i: nat)
    requires i <= |states|
    ensures KeptUpTo(decode, states, i) + OnePass(decode, states[i..], OpenAt(decode, states, i)) ==
              KeptUpTo(decode, states, |states|)
    decreases |states| - i
  {
    if i < |states| {
      OnePassKeeps(decode, states, i + 1);
      OpenNext(decode, states, i);
      assert states[i..][1..] == states[i + 1..];
    }
  }

  /** The result is, in order, exactly the node keys whose nearest preceding status is notStaked. */
  lemma InactiveNodesExactly(decode: string -> string, states: seq<string>)
    ensures GetInactiveNodesBuffers(decode, states) == KeptUpTo(decode, states, |states|)
  {
    LookAheadIsOnePass(decode, states);
    OnePassKeeps(decode, states, 0);
    assert states[0..] == states && !OpenAt(decode, states, 0);
  }

  // ----- sections -----------------------------------------------------------------------------

  datatype Section = Section(status: string, nodes: seq<string>)

  ghost predicate IsSection(decode: string -> string, s: Section) {
    IsStatus(decode, s.status) && forall i :: 0 <= i < |s.nodes| ==> !IsStatus(decode, s.nodes[i])
  }

  function Flatten(sections: seq<Section>): seq<string> {
    if sections == [] then [] else [sections[0].status] + sections[0].nodes + Flatten(sections[1..])
  }

  function NotStakedNodes(decode: string -> string, sections: seq<Section>): seq<string> {
    if sections == [] then []
    else
      (if decode(sections[0].status) == NOT_STAKED then sections[0].nodes else [])
      + NotStakedNodes(decode, sections[1..])
  }

  lemma {:induction false} PassOverNodes(decode: string -> string, nodes: seq<string>, rest: seq<string>, open: bool)
    requires forall i :: 0 <= i < |nodes| ==> !IsStatus(decode, nodes[i])
    ensures OnePass(decode, nodes + rest, open) == (if open then nodes else []) + OnePass(decode, rest, open)
    decreases |nodes|
  {
    if nodes == [] {
      assert nodes + rest == rest;
    } else {
      assert (nodes + rest)[1..] == nodes[1..] + rest;
      PassOverNodes(decode, nodes[1..], rest, open);
    }
  }

  /** A pass over one section yields its nodes if it is notStaked. */
  lemma PassOverSection(decode: string -> string, s: Section, rest: seq<string>, open: bool)
    requires IsSection(decode, s)
    ensures var notStaked := decode(s.status) == NOT_STAKED;
            OnePass(decode, [s.status] + s.nodes + rest, open) ==
              (if notStaked then s.nodes else []) + OnePass(decode, rest, notStaked)
  {
    assert ([s.status] + s.nodes + rest)[1..] == s.nodes + rest;
    PassOverNodes(decode, s.nodes, rest, decode(s.status) == NOT_STAKED);
  }

  lemma {:induction false} PassOverSections(decode: string -> string, sections: seq<Section>, open: bool)
    requires forall i :: 0 <= i < |sections| ==> IsSection(decode, sections[i])
    ensures OnePass(decode, Flatten(sections), open) == NotStakedNodes(decode, sections)
    decreases |sections|
  {
    if sections != [] {
      var notStaked := decode(sections[0].status) == NOT_STAKED;
      PassOverSection(decode, sections[0], Flatten(sections[1..]), open);
      PassOverSections(decode, sections[1..], notStaked);
    }
  }

  /** On a flattened list of sections the result is the nodes of the notStaked sections, in order. */
  lemma SectionsRead(decode: string -> string, sections: seq<Section>)
    requires forall i :: 0 <= i < |sections| ==> IsSection(decode, sections[i])
    ensures GetInactiveNodesBuffers(decode, Flatten(sections)) == NotStakedNodes(decode, sections)
  {
    LookAheadIsOnePass(decode, Flatten(sections));
    PassOverSections(decode, sections, false);
  }
}
