/** What the forms of an environment variable set. */
module ConfigValues {
  import opened Collections
  import opened ConfigTree
  import opened ConfigStore
  import opened ConfigOverrides

  // ----- the forms of a value -----------------------------------------------------------------

  /** The word true, in upper or lower case letters. */
  predicate SaysTrue(s: string) {
    |s| == 4 && s[0] in {'t', 'T'} && s[1] in {'r', 'R'} && s[2] in {'u', 'U'} && s[3] in {'e', 'E'}
  }

  lemma LowerChars(c: char, lower: char)
    requires 'a' <= lower <= 'z'
    ensures LowerChar(c) == lower <==> c == lower || c as int == lower as int - 32
  {
  }

  lemma LowerIsTrue(s: string)
    ensures Lower(s) == "true" <==> SaysTrue(s)
  {
    if |s| == 4 {
      LowerChars(s[0], 't');
      LowerChars(s[1], 'r');
      LowerChars(s[2], 'u');
      LowerChars(s[3], 'e');
      assert Lower(s) == [LowerChar(s[0]), LowerChar(s[1]), LowerChar(s[2]), LowerChar(s[3])];
      if SaysTrue(s) { assert Lower(s) == "true"; }
      if Lower(s) == "true" {
        assert Lower(s)[0] == 't' && Lower(s)[1] == 'r' && Lower(s)[2] == 'u' && Lower(s)[3] == 'e';
      }
    }
  }

  lemma {:induction false} ColonAt(prefix: string, value: string)
    requires ':' !in prefix
    ensures IndexOf(prefix + ":" + value, ':') == |prefix|
    decreases |prefix|
  {
    var s := prefix + ":" + value;
    if prefix == [] {
      assert s[0] == ':';
    } else {
      assert s[0] == prefix[0] && s[1..] == prefix[1..] + ":" + value;
      ColonAt(prefix[1..], value);
    }
  }

  lemma Parts(prefix: string, value: string)
    requires ':' !in prefix
    ensures var raw := prefix + ":" + value;
            var colon := IndexOf(raw, ':');
            colon == |prefix| < |raw| && raw[..colon] == prefix && raw[colon + 1..] == value
  {
    ColonAt(prefix, value);
  }

  /** Behind bool the word true is true, in any case of its letters, and everything else is false. */
  lemma BoolReads(value: string, dec: Decoders)
    ensures ConvertValue("bool" + ":" + value, dec) == Some(Boolean(SaysTrue(value)))
  {
    Parts("bool", value);
    LowerIsTrue(value);
  }

  /** Behind num is a number, or else the variable is ignored. */
  lemma NumReads(value: string, dec: Decoders)
    ensures ConvertValue("num" + ":" + value, dec) ==
              if value in dec.numbers then Some(Number(dec.numbers[value])) else None
  {
    Parts("num", value);
  }

  /** Behind arr is an array in brackets, or else the variable is ignored. */
  lemma ArrReads(value: string, dec: Decoders)
    ensures ConvertValue("arr" + ":" + value, dec) ==
              if |value| > 0 && value[0] == '[' && value[|value| - 1] == ']' && value in dec.arrays
              then Some(dec.arrays[value])
              else None
  {
    Parts("arr", value);
  }

  /** Without a colon, and behind any other prefix, everything is text, prefix included. */
  lemma TextReads(raw: string, prefix: string, value: string, dec: Decoders)
    requires ':' !in raw || raw == prefix + ":" + value
    requires ':' !in prefix && prefix !in {"bool", "num", "arr", "raw"}
    ensures ConvertValue(raw, dec) == Some(Text(raw))
    ensures UpdateOf(Text(raw), dec) == Assign(Text(raw))
  {
    if ':' in raw {
      Parts(prefix, value);
      if |raw| >= 4 && raw[..4] == "arr:" { ArrPrefix(prefix, value); }
    } else if |raw| >= 4 {
      assert raw[3] in raw;
      NoArray(raw);
    }
  }

  lemma NoArray(s: string)
    requires |s| >= 4 && s[3] != ':'
    ensures s[..4] != "arr:"
  {
    assert s[..4][3] == s[3];
  }

  lemma ArrPrefix(prefix: string, value: string)
    requires ':' !in prefix
    requires var raw := prefix + ":" + value; |raw| >= 4 && raw[..4] == "arr:"
    ensures prefix == "arr"
  {
    ArrHasColon(prefix + ":" + value);
    Parts(prefix, value);
  }

  /** Behind raw text is text, but text that starts like an array is decoded, or else sets nothing. */
  lemma RawReads(value: string, dec: Decoders)
    ensures var converted := ConvertValue("raw" + ":" + value, dec);
            converted == Some(Text(value))
    ensures UpdateOf(Text("arr:" + value), dec) ==
              if value in dec.arrays then Assign(dec.arrays[value]) else Undecodable
  {
    Parts("raw", value);
    var text := "arr:" + value;
    assert text[..4] == "arr:" && text[4..] == value;
  }

  // ----- what is read back --------------------------------------------------------------------

  lemma NamedConfig(x: string, raw: string)
    ensures IsConfig(Variable("CFG_" + x, raw)) && ("CFG_" + x)[4..] == x
  {
    assert ("CFG_" + x)[..4] == "CFG_";
  }

  /** What reads back under the name `x`, the pieces between its underscores being the path. */
  ghost predicate ReadsBack(
      entries: map<string, Tree<string, Scalar>>, env: seq<Variable>, dec: Decoders, x: string, v: Scalar) {
    Get(ModifyAll(entries, Overrides(env, dec)), Split(x)) == Some(Leaf(v))
  }

  lemma AssignedValueIsRead(
      entries: map<string, Tree<string, Scalar>>, env: seq<Variable>, dec: Decoders, k: nat, x: string, raw: string,
      v: Scalar)
    requires NoNameClash(env, dec) && k < |env| && env[k] == Variable("CFG_" + x, raw)
    requires ConvertValue(raw, dec) == Some(v) && UpdateOf(v, dec).Assign?
    ensures ReadsBack(entries, env, dec, x, UpdateOf(v, dec).value)
  {
    NamedConfig(x, raw);
    EveryVariableIsRead(entries, env, dec, k);
  }

  /** A variable set to bool, a number, or text reads back under its name as that. */
  lemma ValuesReadBack(
      entries: map<string, Tree<string, Scalar>>, env: seq<Variable>, dec: Decoders, k: nat, x: string, value: string)
    requires NoNameClash(env, dec) && k < |env|
    ensures env[k] == Variable("CFG_" + x, "bool" + ":" + value) ==>
              ReadsBack(entries, env, dec, x, Boolean(SaysTrue(value)))
    ensures env[k] == Variable("CFG_" + x, "num" + ":" + value) && value in dec.numbers ==>
              ReadsBack(entries, env, dec, x, Number(dec.numbers[value]))
    ensures env[k] == Variable("CFG_" + x, value) && ':' !in value ==>
              ReadsBack(entries, env, dec, x, Text(value))
  {
    BoolReads(value, dec);
    NumReads(value, dec);
    if env[k] == Variable("CFG_" + x, "bool" + ":" + value) {
      AssignedValueIsRead(entries, env, dec, k, x, "bool" + ":" + value, Boolean(SaysTrue(value)));
    }
    if env[k] == Variable("CFG_" + x, "num" + ":" + value) && value in dec.numbers {
      AssignedValueIsRead(entries, env, dec, k, x, "num" + ":" + value, Number(dec.numbers[value]));
    }
    if env[k] == Variable("CFG_" + x, value) && ':' !in value {
      TextReads(value, "", "", dec);
      AssignedValueIsRead(entries, env, dec, k, x, value, Text(value));
    }
  }

  /** Variables of other names, and numbers and arrays that do not read, have no effect. */
  lemma IgnoredVariable(
      entries: map<string, Tree<string, Scalar>>, env: seq<Variable>, dec: Decoders, k: nat, value: string)
    requires k < |env|
    requires || !("CFG_" <= env[k].name)
             || (env[k].raw == "num" + ":" + value && value !in dec.numbers)
             || (env[k].raw == "arr" + ":" + value && value !in dec.arrays)
    ensures ModifyAll(entries, Overrides(env, dec)) == ModifyAll(entries, Overrides(Without(env, k), dec))
  {
    NumReads(value, dec);
    ArrReads(value, dec);
    OtherNames(env[k]);
    WithoutEffect(env, k, dec);
  }

  lemma OtherNames(v: Variable)
    ensures IsConfig(v) <==> "CFG_" <= v.name
  {
  }

  lemma WithoutEffect(env: seq<Variable>, k: nat, dec: Decoders)
    requires k < |env| && OverrideOf(env[k], dec) == []
    ensures Overrides(env, dec) == Overrides(Without(env, k), dec)
  {
    assert env == env[..k] + [env[k]] + env[k + 1..];
    OverridesOfParts(env[..k] + [env[k]], env[k + 1..], dec);
    OverridesSnoc(env[..k], env[k], dec);
    OverridesOfParts(env[..k], env[k + 1..], dec);
  }
}
