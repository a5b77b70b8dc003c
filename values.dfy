/**
 * The in-memory values the converter moves between JSON and CSV: the JSON
 * subset that the converter handles (no floats), Python dicts as ordered
 * (key, value) sequences, Python truthiness, hashability and `str()`.
 */
module Values {
  import opened Wrappers

  /** A JSON-like Python value. `Null` is Python's `None`. */
  datatype Value =
    | Null
    | Bool(b: bool)
    | Int(i: int)
    | Str(s: string)
    | List(items: seq<Value>)
    | Dict(entries: seq<(Value, Value)>)

  /** A Python dict: its (key, value) pairs in insertion order. */
  type Record = seq<(Value, Value)>

  /** The exceptions the modelled code can raise. */
  datatype PyError = TypeError | AttributeError

  function Keys(r: Record): seq<Value>
  {
    seq(|r|, i requires 0 <= i < |r| => r[i].0)
  }

  function ValuesOf(r: Record): seq<Value>
  {
    seq(|r|, i requires 0 <= i < |r| => r[i].1)
  }

  /** No key occurs twice, as in every Python dict. */
  predicate UniqueKeys(r: Record)
  {
    forall i, j :: 0 <= i < j < |r| ==> r[i].0 != r[j].0
  }

  /** `d.get(k)`: the value stored under `k`, if any. */
  function Lookup(r: Record, k: Value): (v: Option<Value>)
    ensures v.Some? <==> k in Keys(r)
    ensures v.Some? ==> (k, v.value) in r
  {
    if r == [] then None
    else if r[0].0 == k then assert Keys(r)[0] == k; Some(r[0].1)
    else
      var rest := Lookup(r[1..], k);
      assert Keys(r) == [r[0].0] + Keys(r[1..]);
      rest
  }

  /** In a dict, the pair at position i is what a lookup of its key finds. */
  lemma {:induction false} LookupAt(r: Record, i: nat)
    requires UniqueKeys(r) && i < |r|
    ensures Lookup(r, r[i].0) == Some(r[i].1)
  {
    if i > 0 {
      LookupAt(r[1..], i - 1);
    }
  }

  /**
   * `d[k] = v`: an existing key keeps its position and gets the new value;
   * a new key is appended.
   */
  function Set(r: Record, k: Value, v: Value): (r': Record)
    ensures Lookup(r', k) == Some(v)
    ensures forall e :: e in r' ==> e in r || e == (k, v)
  {
    if r == [] then [(k, v)]
    else if r[0].0 == k then [(k, v)] + r[1..]
    else [r[0]] + Set(r[1..], k, v)
  }

  /** Assigning a key already present keeps every key in its place. */
  lemma {:induction false} SetPresent(r: Record, k: Value, v: Value)
    requires k in Keys(r)
    ensures Keys(Set(r, k, v)) == Keys(r)
  {
    assert [r[0]] + r[1..] == r;
    KeysCons(r[0], r[1..]);
    if r[0].0 != k {
      SetPresent(r[1..], k, v);
      KeysCons(r[0], Set(r[1..], k, v));
    } else {
      KeysCons((k, v), r[1..]);
    }
  }

  lemma KeysCons(e: (Value, Value), r: Record)
    ensures Keys([e] + r) == [e.0] + Keys(r)
  {
  }

  /** Assigning a new key appends it. */
  lemma {:induction false} SetAbsent(r: Record, k: Value, v: Value)
    requires forall i :: 0 <= i < |r| ==> r[i].0 != k
    ensures Set(r, k, v) == r + [(k, v)]
  {
    if r != [] {
      TailHasNoKey(r, k);
      SetAbsent(r[1..], k, v);
      SetPastHead(r, k, v);
      ConsAppend(r, (k, v));
    }
  }

  lemma TailHasNoKey(r: Record, k: Value)
    requires r != [] && forall i :: 0 <= i < |r| ==> r[i].0 != k
    ensures r[0].0 != k && forall i :: 0 <= i < |r[1..]| ==> r[1..][i].0 != k
  {
    forall i | 0 <= i < |r[1..]| ensures r[1..][i].0 != k {
      assert r[1..][i] == r[i + 1];
    }
  }

  /** Assigning a key other than the first leaves the first entry in front. */
  lemma SetPastHead(r: Record, k: Value, v: Value)
    requires r != [] && r[0].0 != k
    ensures Set(r, k, v) == [r[0]] + Set(r[1..], k, v)
  {
  }

  lemma ConsAppend<T>(s: seq<T>, y: T)
    requires s != []
    ensures [s[0]] + (s[1..] + [y]) == s + [y]
  {
    assert [s[0]] + s[1..] == s;
  }

  /** Assigning one key leaves what the other keys map to unchanged. */
  lemma {:induction false} SetOther(r: Record, k: Value, v: Value, k': Value)
    requires k' != k
    ensures Lookup(Set(r, k, v), k') == Lookup(r, k')
  {
    if r != [] && r[0].0 != k {
      SetOther(r[1..], k, v, k');
    }
  }

  /** Assigning the pairs of `ps` one after another, as `dict(zip(...))` and update loops do. */
  function SetAll(r: Record, ps: Record): (r': Record)
    ensures forall e :: e in r' ==> e in r || e in ps
    decreases |ps|
  {
    if ps == [] then r else SetAll(Set(r, ps[0].0, ps[0].1), ps[1..])
  }

  /** The last assignment wins. */
  lemma {:induction false} SetAllLast(r: Record, ps: Record)
    requires ps != []
    ensures Lookup(SetAll(r, ps), ps[|ps| - 1].0) == Some(ps[|ps| - 1].1)
    decreases |ps|
  {
    if |ps| == 1 {
      assert SetAll(r, ps) == SetAll(Set(r, ps[0].0, ps[0].1), []);
    } else {
      SetAllLast(Set(r, ps[0].0, ps[0].1), ps[1..]);
    }
  }

  /** Assigning fresh, distinct keys appends the pairs in order. */
  lemma {:induction false} SetAllFresh(r: Record, ps: Record)
    requires UniqueKeys(r + ps)
    ensures SetAll(r, ps) == r + ps
    decreases |ps|
  {
    if ps != [] {
      var rp := r + ps;
      assert rp[|r|] == ps[0];
      assert forall i :: 0 <= i < |r| ==> r[i].0 != ps[0].0 by {
        forall i | 0 <= i < |r| ensures r[i].0 != ps[0].0 {
          assert rp[i] == r[i];
        }
      }
      SetAbsent(r, ps[0].0, ps[0].1);
      var r1 := r + [ps[0]];
      AppendHead(r, ps);
      SetAllFresh(r1, ps[1..]);
    }
  }

  lemma AppendHead<T>(a: seq<T>, b: seq<T>)
    requires b != []
    ensures (a + [b[0]]) + b[1..] == a + b
  {
    assert b == [b[0]] + b[1..];
  }

  /** Python truthiness, as used by `not data`. */
  predicate Truthy(v: Value)
  {
    match v
    case Null => false
    case Bool(b) => b
    case Int(i) => i != 0
    case Str(s) => s != ""
    case List(items) => items != []
    case Dict(entries) => entries != []
  }

  /** Lists and dicts cannot be dict keys. */
  predicate Hashable(v: Value)
  {
    !v.List? && !v.Dict?
  }

  predicate AllHashable(vs: seq<Value>)
  {
    forall i :: 0 <= i < |vs| ==> Hashable(vs[i])
  }

  /** ASCII lower-casing of one character. */
  function LowerChar(c: char): char
  {
    if 'A' <= c <= 'Z' then (c as int + 32) as char else c
  }

  /** ASCII upper-casing of one character. */
  function UpperChar(c: char): char
  {
    if 'a' <= c <= 'z' then (c as int - 32) as char else c
  }

  /** `s.lower()`, ASCII letters only. */
  function LowerStr(s: string): string
  {
    seq(|s|, i requires 0 <= i < |s| => LowerChar(s[i]))
  }

  /** `s` spells the lower-case word `w` in some mix of upper and lower case. */
  predicate IsCasingOf(s: string, w: string)
  {
    |s| == |w| && forall i :: 0 <= i < |s| ==> s[i] == w[i] || s[i] == UpperChar(w[i])
  }

  predicate IsLowerWord(w: string)
  {
    forall i :: 0 <= i < |w| ==> 'a' <= w[i] <= 'z'
  }

  /** Lower-casing yields a lower-case word exactly for its casings. */
  lemma LowerStrIsWord(s: string, w: string)
    requires IsLowerWord(w)
    ensures LowerStr(s) == w <==> IsCasingOf(s, w)
  {
    if IsCasingOf(s, w) {
      forall i | 0 <= i < |s| ensures LowerStr(s)[i] == w[i] {
      }
    }
    if LowerStr(s) == w {
      forall i | 0 <= i < |s| ensures s[i] == w[i] || s[i] == UpperChar(w[i]) {
        assert LowerChar(s[i]) == w[i];
      }
    }
  }

  function Digit(d: nat): char
    requires d < 10
  {
    "0123456789"[d]
  }

  function NatText(n: nat): (t: string)
    ensures |t| > 0
    decreases n
  {
    if n < 10 then [Digit(n)] else NatText(n / 10) + [Digit(n % 10)]
  }

  function Join(parts: seq<string>, sep: string): string
  {
    if parts == [] then ""
    else if |parts| == 1 then parts[0]
    else parts[0] + sep + Join(parts[1..], sep)
  }

  /**
   * Python's `str(v)` (when `quoted` is false) and `repr(v)` (when true):
   * they differ only on strings, which `repr` puts in quotes. Containers show
   * their elements with `repr`.
   */
  function Render(v: Value, quoted: bool): string
    decreases v
  {
    match v
    case Null => "None"
    case Bool(b) => if b then "True" else "False"
    case Int(i) => if i < 0 then "-" + NatText(-i) else NatText(i)
    case Str(s) => if quoted then "'" + s + "'" else s
    case List(items) =>
      "[" + Join(seq(|items|, i requires 0 <= i < |items| => Render(items[i], true)), ", ") + "]"
    case Dict(entries) =>
      "{" + Join(seq(|entries|, i requires 0 <= i < |entries| =>
                       Render(entries[i].0, true) + ": " + Render(entries[i].1, true)), ", ") + "}"
  }

  /** Python's `str(v)`. */
  function Stringify(v: Value): string
  {
    Render(v, false)
  }
}
