/** The loosely typed values the source passes around (request bodies, spreadsheet cells, row objects). */
module Json {
  import opened Text

  /** A JavaScript value as it occurs in the source: `undefined`, `null`, a boolean, a number, a string,
      a `Date` (milliseconds since the epoch), an array or a plain object. */
  datatype Value =
    | Undef
    | Null
    | Bool(b: bool)
    | Num(n: real)
    | Str(s: string)
    | Date(ms: int)
    | Arr(items: seq<Value>)
    | Obj(fields: map<string, Value>)

  /** JavaScript truthiness: `undefined`, `null`, `false`, `0` and `''` are falsy; objects, arrays and dates are truthy. */
  predicate Truthy(v: Value) {
    match v
    case Undef => false
    case Null => false
    case Bool(b) => b
    case Num(n) => n != 0.0
    case Str(s) => s != ""
    case _ => true
  }

  /** `typeof v === 'object'`: true of `null`, dates, arrays and plain objects. */
  predicate IsObjectType(v: Value) {
    v.Null? || v.Date? || v.Arr? || v.Obj?
  }

  /** Property access `o[k]`: the value stored under `k`, or `undefined` when there is none. */
  function Get(o: map<string, Value>, k: string): (v: Value)
    ensures k !in o ==> v == Undef
    ensures k in o ==> v == o[k]
  {
    if k in o then o[k] else Undef
  }

  /** `a || b || ... || z`: the first truthy operand, or the last operand when none is truthy. */
  function FirstTruthy(vs: seq<Value>): Value
    requires |vs| > 0
  {
    if |vs| == 1 || Truthy(vs[0]) then vs[0] else FirstTruthy(vs[1..])
  }

  /** `||` yields one of its operands: the first truthy one, or the last one when none is truthy. */
  lemma {:induction false} FirstTruthyPicks(vs: seq<Value>)
    requires |vs| > 0
    ensures FirstTruthy(vs) in vs
    ensures Truthy(FirstTruthy(vs)) <==> exists i :: 0 <= i < |vs| && Truthy(vs[i])
    ensures Truthy(FirstTruthy(vs)) ==>
              exists i :: 0 <= i < |vs| && vs[i] == FirstTruthy(vs) && forall j :: 0 <= j < i ==> !Truthy(vs[j])
    ensures !Truthy(FirstTruthy(vs)) ==> FirstTruthy(vs) == vs[|vs| - 1]
    decreases |vs|
  {
    if |vs| > 1 && !Truthy(vs[0]) {
      FirstTruthyPicks(vs[1..]);
      assert forall i :: 1 <= i < |vs| ==> vs[i] == vs[1..][i - 1];
      if Truthy(FirstTruthy(vs)) {
        var i :| 0 <= i < |vs[1..]| && vs[1..][i] == FirstTruthy(vs) && forall j :: 0 <= j < i ==> !Truthy(vs[1..][j]);
        assert vs[i + 1] == FirstTruthy(vs);
        assert forall j :: 0 <= j < i + 1 ==> !Truthy(vs[j]) by {
          forall j | 0 < j < i + 1 ensures !Truthy(vs[j]) {
            assert vs[j] == vs[1..][j - 1];
          }
        }
      }
      if exists i :: 0 <= i < |vs| && Truthy(vs[i]) {
        var i :| 0 <= i < |vs| && Truthy(vs[i]);
        assert i > 0 && vs[1..][i - 1] == vs[i];
      }
    }
  }

  /** Falsy leading operands are skipped: `a || b || c` is `c` when `a` and `b` are falsy. */
  lemma {:induction false} FirstTruthySkipsFalsy(vs: seq<Value>, k: nat)
    requires k < |vs|
    requires forall j :: 0 <= j < k ==> !Truthy(vs[j])
    ensures FirstTruthy(vs) == FirstTruthy(vs[k..])
    decreases k
  {
    if k > 0 {
      assert vs[1..][k - 1..] == vs[k..];
      assert forall j :: 0 <= j < k - 1 ==> vs[1..][j] == vs[j + 1];
      FirstTruthySkipsFalsy(vs[1..], k - 1);
    }
  }
}
