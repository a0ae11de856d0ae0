/** JSON values as a Python program sees them after `json.loads`, together with the
    few Python operations the translators apply to them: truthiness, `v[0]`, `v[key]`,
    `key in v` and `d.get(key, default)`. Python's `None` is `JNull`. */
module PyJson {
  import opened Wrappers

  datatype Json =
    | JNull
    | JBool(b: bool)
    | JInt(i: int)
    | JStr(s: string)
    | JArr(items: seq<Json>)
    | JObj(fields: map<string, Json>)

  /** The exceptions Python raises from the operations below. */
  datatype PyError = TypeError | AttributeError | IndexError | KeyError | ValueError

  /** Python truthiness (`bool(v)`). */
  predicate Truthy(v: Json) {
    match v
    case JNull => false
    case JBool(b) => b
    case JInt(i) => i != 0
    case JStr(s) => s != ""
    case JArr(items) => items != []
    case JObj(fields) => fields != map[]
  }

  /** `d.get(key, default)` on a dict. */
  function GetOr(d: map<string, Json>, key: string, default: Json): (r: Json)
    ensures key in d ==> r == d[key]
    ensures key !in d ==> r == default
  {
    if key in d then d[key] else default
  }

  /** `v[0]`: the first element of a list, the first character of a str, a KeyError on a
      dict (whose keys are strings), and a TypeError on None, bool and int. */
  function Index0(v: Json): (r: Result<Json, PyError>)
    ensures r.Ok? <==> (v.JArr? && v.items != []) || (v.JStr? && v.s != "")
    ensures r.Ok? && v.JArr? ==> r.value == v.items[0]
    ensures r.Ok? && v.JStr? ==> r.value == JStr([v.s[0]])
    ensures v.JObj? ==> r == Err(KeyError)
    ensures (v.JArr? && v.items == []) || (v.JStr? && v.s == "") ==> r == Err(IndexError)
    ensures v.JNull? || v.JBool? || v.JInt? ==> r == Err(TypeError)
  {
    match v
    case JArr(items) => if items != [] then Ok(items[0]) else Err(IndexError)
    case JStr(s) => if s != "" then Ok(JStr([s[0]])) else Err(IndexError)
    case JObj(_) => Err(KeyError)
    case _ => Err(TypeError)
  }

  /** `v[key]` with a str key: a lookup on a dict (KeyError when absent), a TypeError on
      every other value (lists and strings take integer indices only). */
  function Subscript(v: Json, key: string): (r: Result<Json, PyError>)
    ensures r.Ok? <==> v.JObj? && key in v.fields
    ensures r.Ok? ==> r.value == v.fields[key]
    ensures v.JObj? && key !in v.fields ==> r == Err(KeyError)
    ensures !v.JObj? ==> r == Err(TypeError)
  {
    if v.JObj? then
      if key in v.fields then Ok(v.fields[key]) else Err(KeyError)
    else Err(TypeError)
  }

  /** `t` occurs as a contiguous piece of `s` (Python's `t in s` on two strs). */
  predicate IsSubstring(t: string, s: string)
    decreases |s|
  {
    |t| <= |s| && (s[..|t|] == t || (|s| > 0 && IsSubstring(t, s[1..])))
  }

  /** `key in v` with a str key: membership of a dict key, equality with a list element,
      a substring test on a str, and a TypeError on None, bool and int. */
  function Contains(v: Json, key: string): (r: Result<bool, PyError>)
    ensures v.JObj? ==> r == Ok(key in v.fields)
    ensures v.JArr? ==> r == Ok(JStr(key) in v.items)
    ensures v.JStr? ==> r == Ok(IsSubstring(key, v.s))
    ensures r.Err? <==> v.JNull? || v.JBool? || v.JInt?
  {
    match v
    case JObj(fields) => Ok(key in fields)
    case JArr(items) => Ok(JStr(key) in items)
    case JStr(s) => Ok(IsSubstring(key, s))
    case _ => Err(TypeError)
  }

  /** A str occurs in any str that has it as a contiguous piece. */
  lemma {:induction false} SubstringAt(t: string, s: string, i: nat)
    requires i + |t| <= |s| && s[i..i + |t|] == t
    ensures IsSubstring(t, s)
    decreases i
  {
    if i > 0 {
      assert s[1..][i - 1..i - 1 + |t|] == s[i..i + |t|];
      SubstringAt(t, s[1..], i - 1);
    }
  }

  /** `t` occurs in `s` starting at position `i`. */
  predicate OccursAt(t: string, s: string, i: nat) {
    i + |t| <= |s| && s[i..i + |t|] == t
  }

  /** Conversely, a str that `IsSubstring` accepts occurs at some position. */
  lemma {:induction false} SubstringOccurs(t: string, s: string)
    requires IsSubstring(t, s)
    ensures exists i: nat :: OccursAt(t, s, i)
    decreases |s|
  {
    if s[..|t|] == t {
      assert OccursAt(t, s, 0);
    } else {
      SubstringOccurs(t, s[1..]);
      var i: nat :| OccursAt(t, s[1..], i);
      assert s[1..][i..i + |t|] == s[i + 1..i + 1 + |t|];
      assert OccursAt(t, s, i + 1);
    }
  }

  /** `IsSubstring` is exactly Python's `t in s` on two strs: `t` occurs at some position. */
  lemma SubstringIffOccurs(t: string, s: string)
    ensures IsSubstring(t, s) <==> exists i: nat :: OccursAt(t, s, i)
  {
    if IsSubstring(t, s) {
      SubstringOccurs(t, s);
    } else if i: nat :| OccursAt(t, s, i) {
      SubstringAt(t, s, i);
    }
  }

  /** The guard `if key in v: ... v[key]` is safe on a dict: the lookup succeeds exactly
      when `in` found the key there. A list or str that passes the `in` test still makes
      the lookup raise TypeError. */
  lemma MembershipGuardsLookup(v: Json, key: string)
    ensures Subscript(v, key).Ok? <==> v.JObj? && Contains(v, key) == Ok(true)
    ensures Contains(v, key) == Ok(true) && !v.JObj? ==> Subscript(v, key) == Err(TypeError)
  {
  }
}
