/** `${VAR}` placeholder resolution applied to the loaded settings (`load_settings`). The
    environment is a map from variable names to values; reading the YAML file and the `.env`
    file is not part of this model. */
module Config {
  import opened Text
  import opened Json

  /** A string of the form `${KEY}`. */
  predicate IsPlaceholder(v: Json) {
    v.JStr? && HasPrefix(v.s, "${") && HasSuffix(v.s, "}")
  }

  /** The `KEY` of `${KEY}`, i.e. `value[2:-1]`. */
  function PlaceholderKey(v: Json): (key: string)
    requires IsPlaceholder(v)
    ensures v.s == "${" + key + "}"
  {
    assert v.s[1] == v.s[..2][1] == '{';
    assert v.s[|v.s| - 1] == v.s[|v.s| - 1..][0] == '}';
    v.s[2..|v.s| - 1]
  }

  /** `os.getenv(key, "")`. */
  function EnvGet(env: map<string, string>, key: string): string {
    if key in env then env[key] else ""
  }

  /** `resolve(value)`. */
  function Resolve(v: Json, env: map<string, string>): (r: Json)
    ensures r == v || r.JStr?
  {
    if IsPlaceholder(v) then JStr(EnvGet(env, PlaceholderKey(v))) else v
  }

  /** A measure that `Resolve` never increases. */
  function Size(j: Json): (n: nat)
    ensures n >= 1
  {
    match j
    case JObj(fs) => 1 + FieldsSize(fs)
    case _ => 1
  }

  function FieldsSize(fs: seq<Field>): nat
    decreases fs
  {
    if fs == [] then 0 else 1 + Size(fs[0].value) + FieldsSize(fs[1..])
  }

  /** `walk(d)`: objects are rebuilt member by member with `walk(resolve(v))`; anything else,
      lists included, is passed to `resolve` once. */
  function Walk(d: Json, env: map<string, string>): (r: Json)
    ensures d.JObj? <==> r.JObj?
    ensures d.JObj? ==> Keys(r.fields) == Keys(d.fields)
    decreases Size(d), 1
  {
    match d
    case JObj(fs) => JObj(WalkFields(fs, env))
    case _ => Resolve(d, env)
  }

  function WalkFields(fs: seq<Field>, env: map<string, string>): (r: seq<Field>)
    ensures Keys(r) == Keys(fs)
    decreases FieldsSize(fs), 0
  {
    if fs == [] then []
    else [Field(fs[0].key, Walk(Resolve(fs[0].value, env), env))] + WalkFields(fs[1..], env)
  }

  /** The value `walk` gives the member at position `k` of an object. */
  lemma {:induction false} WalkFieldAt(fs: seq<Field>, env: map<string, string>, k: nat)
    requires k < |fs|
    ensures |WalkFields(fs, env)| == |fs|
    ensures WalkFields(fs, env)[k] == Field(fs[k].key, Walk(Resolve(fs[k].value, env), env))
    decreases k
  {
    if k > 0 { WalkFieldAt(fs[1..], env, k - 1); }
  }

  lemma ResolvePlaceholder(key: string, env: map<string, string>)
    ensures Resolve(JStr("${" + key + "}"), env) == JStr(EnvGet(env, key))
  {
    var v := JStr("${" + key + "}");
    assert HasPrefix(v.s, "${") && HasSuffix(v.s, "}");
    var k' := PlaceholderKey(v);
    assert "${" + k' + "}" == "${" + key + "}";
    assert k' == ("${" + k' + "}")[2..|k'| + 2];
  }

  /** A member whose value is `${X}`, with `X` bound to `${Y}`, ends up as the value of `Y`:
      members are resolved twice. */
  lemma MemberResolvedTwice(fs: seq<Field>, k: nat, x: string, y: string, env: map<string, string>)
    requires k < |fs| && fs[k].value == JStr("${" + x + "}")
    requires x in env && env[x] == "${" + y + "}"
    ensures WalkFields(fs, env)[k].value == JStr(EnvGet(env, y))
  {
    WalkFieldAt(fs, env, k);
    ResolvePlaceholder(x, env);
    ResolvePlaceholder(y, env);
  }

  /** The same chain at the top level is resolved only once. */
  lemma TopLevelResolvedOnce(x: string, y: string, env: map<string, string>)
    requires x in env && env[x] == "${" + y + "}"
    ensures Walk(JStr("${" + x + "}"), env) == JStr("${" + y + "}")
  {
    ResolvePlaceholder(x, env);
  }

  /** Lists are not descended into: a list member comes back unchanged, placeholders and all. */
  lemma ListMemberUnchanged(fs: seq<Field>, k: nat, env: map<string, string>)
    requires k < |fs| && fs[k].value.JArr?
    ensures WalkFields(fs, env)[k].value == fs[k].value
  {
    WalkFieldAt(fs, env, k);
  }

  /** Nested objects are walked recursively, under the same key. */
  lemma NestedObjectWalked(fs: seq<Field>, k: nat, env: map<string, string>)
    requires k < |fs| && fs[k].value.JObj?
    ensures WalkFields(fs, env)[k] == Field(fs[k].key, Walk(fs[k].value, env))
  {
    WalkFieldAt(fs, env, k);
  }

  /** Values that are not `${...}` strings (numbers, booleans, plain strings) are kept. */
  lemma ScalarMemberUnchanged(fs: seq<Field>, k: nat, env: map<string, string>)
    requires k < |fs| && !fs[k].value.JObj? && !IsPlaceholder(fs[k].value)
    ensures WalkFields(fs, env)[k].value == fs[k].value
  {
    WalkFieldAt(fs, env, k);
  }
}
