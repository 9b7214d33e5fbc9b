/**
 Configuration overrides from environment variables: names that start with CFG_ are split at
 underscores into a path, values are converted by their prefix, and the path is updated.
 */
module ConfigOverrides {
  import opened Collections
  import opened ConfigTree
  import opened ConfigStore

  datatype Scalar = Text(text: string) | Boolean(truth: bool) | Number(number: int) | Array(items: seq<Scalar>) | Null

  /** What decodes as an integer, and what decodes as JSON, and to what. */
  datatype Decoders = Decoders(numbers: map<string, int>, arrays: map<string, Scalar>)

  datatype Variable = Variable(name: string, raw: string)

  // ----- names --------------------------------------------------------------------------------

  /** The pieces between underscores; there is always one more piece than underscores. */
  function Split(s: string): (pieces: seq<string>)
    ensures pieces != []
  {
    if s == [] then [[]]
    else
      var rest := Split(s[1..]);
      if s[0] == '_' then [[]] + rest else [[s[0]] + rest[0]] + rest[1..]
  }

  function Join(pieces: seq<string>): string
    requires pieces != []
  {
    if |pieces| == 1 then pieces[0] else pieces[0] + ['_'] + Join(pieces[1..])
  }

  lemma JoinWithEmpty(pieces: seq<string>)
    requires pieces != []
    ensures Join([[]] + pieces) == ['_'] + Join(pieces)
  {
    assert ([[]] + pieces)[1..] == pieces;
  }

  lemma JoinWithLonger(c: char, first: string, rest: seq<string>)
    ensures Join([[c] + first] + rest) == [c] + Join([first] + rest)
  {
    assert ([[c] + first] + rest)[1..] == rest == ([first] + rest)[1..];
    if rest != [] {
      assert [c] + first + ['_'] + Join(rest) == [c] + (first + ['_'] + Join(rest));
    }
  }

  /** Splitting loses nothing: different names give different paths. */
  lemma {:induction false} JoinOfSplit(s: string)
    ensures Join(Split(s)) == s
  {
    if s != [] {
      var rest := Split(s[1..]);
      JoinOfSplit(s[1..]);
      if s[0] == '_' {
        JoinWithEmpty(rest);
      } else {
        JoinWithLonger(s[0], rest[0], rest[1..]);
        assert [rest[0]] + rest[1..] == rest;
      }
    }
  }

  /** `y` is `x`, or goes on with an underscore. */
  ghost predicate GoesOn(x: string, y: string) {
    |x| <= |y| && y[..|x|] == x && (|x| == |y| || y[|x|] == '_')
  }

  lemma PrefixOfPieces(a: string, p: seq<string>, b: string, q: seq<string>)
    ensures IsPrefix([a] + p, [b] + q) <==> a == b && IsPrefix(p, q)
  {
    assert ([a] + p)[1..] == p && ([b] + q)[1..] == q;
    if IsPrefix([a] + p, [b] + q) {
      assert ([b] + q)[..|p| + 1][0] == a;
    }
    if a == b {
      PrefixTail([a] + p, [b] + q);
    }
  }

  lemma {:induction false} GoesOnTail(x: string, y: string)
    requires x != [] && y != []
    ensures GoesOn(x, y) <==> x[0] == y[0] && GoesOn(x[1..], y[1..])
  {
    assert x == [x[0]] + x[1..] && y == [y[0]] + y[1..];
    if |x| <= |y| {
      assert y[..|x|] == [y[0]] + y[1..][..|x| - 1];
    }
    if GoesOn(x, y) {
      assert y[..|x|][0] == x[0];
      assert x[1..] == y[..|x|][1..] == y[1..][..|x| - 1];
    }
  }

  /** The path of a name is a prefix of the path of another exactly if the other goes on with an underscore. */
  lemma {:induction false} PrefixIffGoesOn(x: string, y: string)
    ensures IsPrefix(Split(x), Split(y)) <==> GoesOn(x, y)
    decreases |x|
  {
    var p, q := Split(x), Split(y);
    if x == [] {
      assert p == [[]] + [] && q == [q[0]] + q[1..];
      PrefixOfPieces([], [], q[0], q[1..]);
    } else if y == [] {
      assert q == [[]] + [] && p == [p[0]] + p[1..];
      PrefixOfPieces(p[0], p[1..], [], []);
    } else {
      var p', q' := Split(x[1..]), Split(y[1..]);
      PrefixIffGoesOn(x[1..], y[1..]);
      GoesOnTail(x, y);
      assert p' == [p'[0]] + p'[1..] && q' == [q'[0]] + q'[1..] && p == [p[0]] + p[1..] && q == [q[0]] + q[1..];
      PrefixOfPieces(p'[0], p'[1..], q'[0], q'[1..]);
      PrefixOfPieces(p[0], p[1..], q[0], q[1..]);
      if x[0] == '_' || y[0] == '_' {
        assert x[0] == '_' ==> p[1..] == p';
        assert y[0] == '_' ==> q[1..] == q';
      } else {
        assert p[0] == [x[0]] + p'[0] && q[0] == [y[0]] + q'[0];
        assert p[0][1..] == p'[0] && q[0][1..] == q'[0];
      }
    }
  }

  // ----- values -------------------------------------------------------------------------------

  function IndexOf(s: string, c: char): (k: nat)
    ensures k <= |s| && (k < |s| ==> s[k] == c) && forall i :: 0 <= i < k ==> s[i] != c
  {
    if s == [] || s[0] == c then 0 else 1 + IndexOf(s[1..], c)
  }

  function LowerChar(c: char): char {
    if 'A' <= c <= 'Z' then ((c as int) + 32) as char else c
  }

  function Lower(s: string): string {
    seq(|s|, i requires 0 <= i < |s| => LowerChar(s[i]))
  }

  predicate LooksLikeArray(s: string) {
    s != "" && s[0] == '[' && s[|s| - 1] == ']'
  }

  /** The value behind its prefix: bool, num, arr or raw; anything else is text as it is. */
  function ConvertValue(raw: string, dec: Decoders): Option<Scalar> {
    var colon := IndexOf(raw, ':');
    if colon == |raw| then Some(Text(raw))
    else
      var prefix, value := raw[..colon], raw[colon + 1..];
      if prefix == "bool" then Some(Boolean(Lower(value) == "true"))
      else if prefix == "num" then (if value in dec.numbers then Some(Number(dec.numbers[value])) else None)
      else if prefix ==
        "arr" then (if LooksLikeArray(value) && value in dec.arrays then Some(dec.arrays[value]) else None)
      else if prefix == "raw" then Some(Text(value))
      else Some(Text(raw))
  }

  /** Text that starts like an array is decoded once more on assignment. */
  function UpdateOf(v: Scalar, dec: Decoders): Update<Scalar> {
    if v.Text? && |v.text| >= 4 && v.text[..4] == "arr:" then
      (if v.text[4..] in dec.arrays then Assign(dec.arrays[v.text[4..]]) else Undecodable)
    else Assign(v)
  }

  /** What looks like an array decodes to an array, if at all. */
  ghost predicate DecodesToArrays(dec: Decoders) {
    forall s :: s in dec.arrays && LooksLikeArray(s) ==> dec.arrays[s].Array?
  }

  lemma ArrHasColon(s: string)
    requires |s| >= 4 && s[..4] == "arr:"
    ensures IndexOf(s, ':') == 3 && s[..3] == "arr"
  {
    assert s[0] == s[..4][0] && s[1] == s[..4][1] && s[2] == s[..4][2] && s[3] == s[..4][3];
    assert s[..3] == s[..4][..3];
  }

  /** A second decoding, and its failure, can only come from a raw value. */
  lemma SecondDecodingIsRaw(raw: string, dec: Decoders)
    requires DecodesToArrays(dec)
    requires ConvertValue(raw, dec).Some? &&
             UpdateOf(ConvertValue(raw, dec).value, dec) != Assign(ConvertValue(raw, dec).value)
    ensures raw[..IndexOf(raw, ':')] == "raw" && ConvertValue(raw, dec) == Some(Text(raw[4..])) &&
            raw[4..][..4] == "arr:"
  {
    var v := ConvertValue(raw, dec).value;
    if v.text == raw {
      ArrHasColon(raw);
    }
  }

  /** Every text can be set: behind raw, unless it starts like an array. */
  lemma RawSetsText(text: string, dec: Decoders)
    ensures ConvertValue("raw:" + text, dec) == Some(Text(text))
    ensures !(|text| >= 4 && text[..4] == "arr:") ==> UpdateOf(Text(text), dec) == Assign(Text(text))
  {
    var raw := "raw:" + text;
    assert raw[0] == 'r' && raw[1] == 'a' && raw[2] == 'w' && raw[3] == ':';
    assert IndexOf(raw, ':') == 3;
    assert raw[..3] == "raw" && raw[4..] == text;
  }

  // ----- the environment ----------------------------------------------------------------------

  predicate IsConfig(v: Variable) {
    |v.name| >= 4 && v.name[..4] == "CFG_"
  }

  /** The override a variable asks for, if any. */
  function OverrideOf(v: Variable, dec: Decoders): (os: seq<Override<string, Scalar>>)
    ensures |os| <= 1 && WellFormed(os)
  {
    if IsConfig(v) &&
    ConvertValue(v.raw, dec).Some? then [Override(Split(v.name[4..]), UpdateOf(ConvertValue(v.raw, dec).value, dec))]
    else []
  }

  function Overrides(env: seq<Variable>, dec: Decoders): (os: seq<Override<string, Scalar>>)
    ensures WellFormed(os)
  {
    if env == [] then [] else Overrides(env[..|env| - 1], dec) + OverrideOf(env[|env| - 1], dec)
  }

  function NameOf(v: Variable): string
    requires IsConfig(v)
  {
    v.name[4..]
  }

  /**
   The name of a variable that assigns a value goes on in that of another, or both have the same
   name and different values. A variable whose value does not convert clashes with none.
   */
  ghost predicate NamesClash(v: Variable, w: Variable, dec: Decoders) {
    && OverrideOf(v, dec) != [] && OverrideOf(w, dec) != []
    && OverrideOf(v, dec)[0].update.Assign? && GoesOn(NameOf(v), NameOf(w))
    && (NameOf(v) != NameOf(w)
        || (OverrideOf(w, dec)[0].update.Assign? &&
            OverrideOf(w, dec)[0].update.value != OverrideOf(v, dec)[0].update.value))
  }

  ghost predicate NoNameClash(env: seq<Variable>, dec: Decoders) {
    forall i, j :: 0 <= i < |env| && 0 <= j < |env| && i != j ==> !NamesClash(env[i], env[j], dec)
  }

  lemma NamesClashExactly(v: Variable, w: Variable, dec: Decoders)
    requires OverrideOf(v, dec) != [] && OverrideOf(w, dec) != []
    ensures Clash(OverrideOf(v, dec)[0], OverrideOf(w, dec)[0]) <==> NamesClash(v, w, dec)
  {
    PrefixIffGoesOn(NameOf(v), NameOf(w));
    JoinOfSplit(NameOf(v));
    JoinOfSplit(NameOf(w));
  }

  lemma OverridesSnoc(env: seq<Variable>, v: Variable, dec: Decoders)
    ensures Overrides(env + [v], dec) == Overrides(env, dec) + OverrideOf(v, dec)
  {
    assert (env + [v])[..|env|] == env;
  }

  lemma {:induction false} OverridesOfParts(a: seq<Variable>, b: seq<Variable>, dec: Decoders)
    ensures Overrides(a + b, dec) == Overrides(a, dec) + Overrides(b, dec)
  {
    if b == [] {
      assert a + b == a;
    } else {
      var front, last := b[..|b| - 1], b[|b| - 1];
      assert b == front + [last] && a + b == a + front + [last];
      OverridesOfParts(a, front, dec);
      OverridesSnoc(a + front, last, dec);
      OverridesSnoc(front, last, dec);
    }
  }

  lemma OverridesOfOne(v: Variable, dec: Decoders)
    ensures Overrides([v], dec) == OverrideOf(v, dec)
  {
    assert [v][..0] == [];
  }

  lemma OverridesWithout(env: seq<Variable>, k: nat, dec: Decoders)
    requires k < |env|
    ensures multiset(Overrides(env, dec)) ==
              multiset(Overrides(Without(env, k), dec)) + multiset(OverrideOf(env[k], dec))
  {
    assert env == env[..k] + [env[k]] + env[k + 1..];
    OverridesOfParts(env[..k] + [env[k]], env[k + 1..], dec);
    OverridesOfParts(env[..k], [env[k]], dec);
    OverridesOfOne(env[k], dec);
    OverridesOfParts(env[..k], env[k + 1..], dec);
  }

  lemma {:induction false} OverridesOfPermutation(env: seq<Variable>, env': seq<Variable>, dec: Decoders)
    requires multiset(env) == multiset(env')
    ensures multiset(Overrides(env, dec)) == multiset(Overrides(env', dec))
    decreases |env'|
  {
    if env' == [] {
      assert |multiset(env)| == |multiset(env')|;
    } else {
      var n := |env'| - 1;
      var k := FindLast(env, env');
      OverridesOfPermutation(Without(env, k), env'[..n], dec);
      OverridesWithout(env, k, dec);
      OverridesWithout(env', n, dec);
      assert Without(env', n) == env'[..n];
    }
  }

  /** Each override comes from a variable of its own, in the order of the variables. */
  lemma {:induction false} OverridesComeFrom(env: seq<Variable>, dec: Decoders, i: nat) returns (k: nat)
    requires i < |Overrides(env, dec)|
    ensures k < |env| && OverrideOf(env[k], dec) == [Overrides(env, dec)[i]] && i == |Overrides(env[..k], dec)|
  {
    var n := |env| - 1;
    if i < |Overrides(env[..n], dec)| {
      k := OverridesComeFrom(env[..n], dec, i);
      assert env[..n][..k] == env[..k] && env[k] == env[..n][k];
    } else {
      k := n;
    }
  }

  lemma NoClashOfNames(env: seq<Variable>, dec: Decoders)
    requires NoNameClash(env, dec)
    ensures NoClash(Overrides(env, dec))
  {
    var os := Overrides(env, dec);
    forall i, j | 0 <= i < |os| && 0 <= j < |os| && i != j ensures !Clash(os[i], os[j]) {
      var k := OverridesComeFrom(env, dec, i);
      var l := OverridesComeFrom(env, dec, j);
      NamesClashExactly(env[k], env[l], dec);
    }
  }

  // ----- results ------------------------------------------------------------------------------

  ghost predicate AnyEnvironmentOrderAgrees(
      entries: map<string, Tree<string, Scalar>>, env: seq<Variable>, dec: Decoders) {
    forall env': seq<Variable> :: multiset(env') == multiset(env) ==>
      ModifyAll(entries, Overrides(env', dec)) == ModifyAll(entries, Overrides(env, dec))
  }

  /** The order of the environment has no effect exactly if no two names clash. */
  lemma EnvironmentOrderDoesNotMatterIff(entries: map<string, Tree<string, Scalar>>, env: seq<Variable>, dec: Decoders)
    ensures AnyEnvironmentOrderAgrees(entries, env, dec) <==> NoNameClash(env, dec)
  {
    if NoNameClash(env, dec) {
      NoClashOfNames(env, dec);
      forall env': seq<Variable> | multiset(env') == multiset(env)
        ensures ModifyAll(entries, Overrides(env', dec)) == ModifyAll(entries, Overrides(env, dec))
      {
        OverridesOfPermutation(env, env', dec);
        OrderDoesNotMatter(entries, Overrides(env, dec), Overrides(env', dec));
      }
    } else {
      var i, j :| 0 <= i < |env| && 0 <= j < |env| && i != j && NamesClash(env[i], env[j], dec);
      ClashingOrders(entries, env, dec, i, j);
    }
  }

  /** Two orders of an environment with clashing names that lead to different configurations. */
  lemma ClashingOrders(entries: map<string, Tree<string, Scalar>>, env: seq<Variable>, dec: Decoders, i: nat, j: nat)
    requires i < |env| && j < |env| && i != j && NamesClash(env[i], env[j], dec)
    ensures var a, b := TwoLast(env, i, j), TwoLast(env, j, i);
            && multiset(a) == multiset(env) && multiset(b) == multiset(env)
            && ModifyAll(entries, Overrides(a, dec)) != ModifyAll(entries, Overrides(b, dec))
  {
    var a, b := TwoLast(env, i, j), TwoLast(env, j, i);
    TwoLastIsPermutation(env, i, j);
    TwoLastIsPermutation(env, j, i);
    var rest := if i < j then AllBut(env, i, j) else AllBut(env, j, i);
    var o, o' := OverrideOf(env[i], dec)[0], OverrideOf(env[j], dec)[0];
    TwoMoreVariables(entries, rest, env[i], env[j], dec);
    TwoMoreVariables(entries, rest, env[j], env[i], dec);
    NamesClashExactly(env[i], env[j], dec);
    ClashDiffers(ModifyAll(entries, Overrides(rest, dec)), o, o');
  }

  lemma TwoMoreVariables(
      entries: map<string, Tree<string, Scalar>>, rest: seq<Variable>, v: Variable, w: Variable, dec: Decoders)
    requires OverrideOf(v, dec) != [] && OverrideOf(w, dec) != []
    ensures var o, o' := OverrideOf(v, dec)[0], OverrideOf(w, dec)[0];
            ModifyAll(entries, Overrides(rest + [v] + [w], dec))
            == Modify(Modify(ModifyAll(entries, Overrides(rest, dec)), o.path, o.update), o'.path, o'.update)
  {
    var o, o' := OverrideOf(v, dec)[0], OverrideOf(w, dec)[0];
    OverridesSnoc(rest, v, dec);
    OverridesSnoc(rest + [v], w, dec);
    TwoMore(entries, Overrides(rest, dec), o, o');
  }

  /** Every variable with a value reads back under its name. */
  lemma EveryVariableIsRead(entries: map<string, Tree<string, Scalar>>, env: seq<Variable>, dec: Decoders, k: nat)
    requires NoNameClash(env, dec) && k < |env| && IsConfig(env[k]) && ConvertValue(env[k].raw, dec).Some?
    requires UpdateOf(ConvertValue(env[k].raw, dec).value, dec).Assign?
    ensures Get(ModifyAll(entries, Overrides(env, dec)), Split(env[k].name[4..]))
         == Some(Leaf(UpdateOf(ConvertValue(env[k].raw, dec).value, dec).value))
  {
    var os := Overrides(env, dec);
    NoClashOfNames(env, dec);
    OverridesWithout(env, k, dec);
    var o := OverrideOf(env[k], dec)[0];
    assert o in multiset(os);
    var i :| 0 <= i < |os| && os[i] == o;
    EveryAssignmentIsRead(entries, os, i);
  }

  /** Names where one goes on from the other do clash: the later of the two assignments wins. */
  lemma ClashingNamesDependOnOrder(
      entries: map<string, Tree<string, Scalar>>, x: string, v: Scalar, y: string, w: Scalar)
    requires GoesOn(x, y) && (x != y || v != w)
    ensures Modify(Modify(entries, Split(x), Assign(v)), Split(y),
                Assign(w)) != Modify(Modify(entries, Split(y), Assign(w)), Split(x), Assign(v))
  {
    PrefixIffGoesOn(x, y);
    JoinOfSplit(x);
    JoinOfSplit(y);
    AssignmentsCommuteIff(entries, Split(x), v, Split(y), w);
  }

  /** A path no variable names, nor a part of one, nor beyond one, keeps its value. */
  lemma UnnamedPathsUnchanged(
      entries: map<string, Tree<string, Scalar>>, env: seq<Variable>, dec: Decoders, path: seq<string>)
    requires path != [] && forall k :: 0 <= k < |env| && IsConfig(env[k]) ==>
               Incomparable(Split(env[k].name[4..]), path)
    ensures Get(ModifyAll(entries, Overrides(env, dec)), path) == Get(entries, path)
  {
    var os := Overrides(env, dec);
    forall i | 0 <= i < |os| ensures Incomparable(os[i].path, path) {
      var k := OverridesComeFrom(env, dec, i);
    }
    AllOthersUnchanged(entries, os, path);
  }

  // ----- the code -----------------------------------------------------------------------------

  lemma {:induction false} ModifyAllOfParts(
      entries: map<string, Tree<string, Scalar>>, a: seq<Override<string, Scalar>>, b: seq<Override<string, Scalar>>)
    requires WellFormed(a) && WellFormed(b)
    ensures ModifyAll(entries, a + b) == ModifyAll(ModifyAll(entries, a), b)
    decreases |b|
  {
    if b == [] {
      assert a + b == a;
    } else {
      assert a + b == a + b[..|b| - 1] + [b[|b| - 1]];
      ModifyAllOfParts(entries, a, b[..|b| - 1]);
      ModifySnoc(entries, a + b[..|b| - 1], b[|b| - 1]);
    }
  }

  lemma ModifyAllOfOne(entries: map<string, Tree<string, Scalar>>, o: Override<string, Scalar>)
    requires o.path != []
    ensures ModifyAll(entries, [o]) == Modify(entries, o.path, o.update)
  {
    assert [] + [o] == [o];
    ModifySnoc(entries, [], o);
  }

  method ApplyVariable(config: ConfigFile<string, Scalar>, v: Variable, dec: Decoders)
    requires config.Valid()
    modifies config
    ensures config.Valid() && config.Entries() == ModifyAll(old(config.Entries()), OverrideOf(v, dec))
  {
    if IsConfig(v) {
      var converted := ConvertValue(v.raw, dec);
      if converted.Some? {
        var path, u := Split(v.name[4..]), UpdateOf(converted.value, dec);
        ModifyAllOfOne(config.Entries(), Override(path, u));
        config.ModifyVariable(path, u);
      }
    }
  }

  method ApplyEnvironment(config: ConfigFile<string, Scalar>, env: seq<Variable>, dec: Decoders)
    requires config.Valid()
    modifies config
    ensures config.Valid() && config.Entries() == ModifyAll(old(config.Entries()), Overrides(env, dec))
  {
    for i := 0 to |env|
      invariant config.Valid() && config.Entries() == ModifyAll(old(config.Entries()), Overrides(env[..i], dec))
    {
      assert env[..i + 1][..i] == env[..i];
      ModifyAllOfParts(old(config.Entries()), Overrides(env[..i], dec), OverrideOf(env[i], dec));
      ApplyVariable(config, env[i], dec);
    }
    assert env[..|env|] == env;
  }
}
