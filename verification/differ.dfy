/**
  The feature-bundle differ. A bundle is a nested mapping from names to
  values; `Diff(before, after)` walks the keys of `after` and keeps what
  changed going forward: keys new in `after` verbatim, leaves whose values
  differ with the `after` value, nested mappings only when their own diff is
  non-empty. Keys found only in `before` are never reported.

  The walk follows Python's semantics on mismatched shapes: when `after`
  holds a non-empty mapping where `before` holds an int or a bool, the
  lookup `key not in before` raises a TypeError; when `before` holds a
  string, `in` is a substring test and a key that is a substring makes the
  subsequent indexing raise. Both surface here as `None`. An empty `after`
  looks nothing up and never raises.
 */
module Differ {
  import opened Optional

  datatype Scalar = Int(i: int) | Bool(b: bool) | Label(s: string)

  datatype Bundle = Leaf(v: Scalar) | Node(fields: map<string, Bundle>)

  /** Python `==` on leaf values: `True == 1` and `False == 0`. */
  predicate LeafEq(x: Scalar, y: Scalar)
  {
    match (x, y)
    case (Int(a), Int(b)) => a == b
    case (Bool(a), Bool(b)) => a == b
    case (Label(a), Label(b)) => a == b
    case (Int(a), Bool(b)) => a == (if b then 1 else 0)
    case (Bool(a), Int(b)) => (if a then 1 else 0) == b
    case _ => false
  }

  /** Python's `k in s` for strings: `k` occurs in `s` as a contiguous piece. */
  predicate Contains(s: string, k: string)
    decreases |s|
  {
    k <= s || (|s| > 0 && Contains(s[1..], k))
  }

  /** What one key of `after` contributes: a failure, nothing, or a value. */
  datatype Entry = Fail | Omit | Keep(v: Bundle)

  function DiffEntry(before: Bundle, k: string, after: Bundle): Entry
    decreases after, 1
  {
    match before
    case Leaf(Label(s)) => if Contains(s, k) then Fail else Keep(after)
    case Leaf(_) => Fail
    case Node(m1) =>
      if k !in m1 then Keep(after)
      else
        match after
        case Node(m2) =>
          (match Diff(m1[k], m2)
           case None => Fail
           case Some(d) => if d == map[] then Omit else Keep(Node(d)))
        case Leaf(y) =>
          if m1[k].Leaf? && LeafEq(m1[k].v, y) then Omit else Keep(after)
  }

  /** `compare_features(before, after)`, with None for the TypeError cases. */
  function Diff(before: Bundle, after: map<string, Bundle>): (r: Option<map<string, Bundle>>)
    decreases Node(after), 0
    ensures r.Some? ==> r.value.Keys <= after.Keys
    ensures r.Some? <==> forall k :: k in after ==> !DiffEntry(before, k, after[k]).Fail?
  {
    var entries := map k | k in after :: DiffEntry(before, k, after[k]);
    if exists k :: k in entries && entries[k].Fail? then None
    else
      assert forall k :: k in after ==> entries[k] == DiffEntry(before, k, after[k]);
      Some(map k | k in entries && entries[k].Keep? :: entries[k].v)
  }

  /** Every leaf value equals itself under Python equality. */
  lemma LeafEqReflexive(x: Scalar)
    ensures LeafEq(x, x)
  {
  }

  /** Comparing a bundle with itself reports nothing. */
  lemma {:induction false} DiffSelf(m: map<string, Bundle>)
    ensures Diff(Node(m), m) == Some(map[])
    decreases Node(m)
  {
    forall k | k in m ensures DiffEntry(Node(m), k, m[k]) == Omit {
      match m[k]
      case Node(m2) =>
        DiffSelf(m2);
      case Leaf(y) =>
        LeafEqReflexive(y);
    }
    var d := Diff(Node(m), m);
    assert d.Some?;
    assert d.value == map[];
  }

  /** A key present in `after` but not in `before` is copied with `after`'s value. */
  lemma NewKeyCopied(m1: map<string, Bundle>, after: map<string, Bundle>, k: string)
    requires k in after && k !in m1
    requires Diff(Node(m1), after).Some?
    ensures k in Diff(Node(m1), after).value
    ensures Diff(Node(m1), after).value[k] == after[k]
  {
    assert DiffEntry(Node(m1), k, after[k]) == Keep(after[k]);
  }

  /**
    A key holding a plain value on the `after` side is reported iff the old
    value is not an equal plain value (a mapping never equals a plain value),
    and then with the new value.
   */
  lemma LeafChange(m1: map<string, Bundle>, after: map<string, Bundle>, k: string)
    requires k in m1 && k in after && after[k].Leaf?
    requires Diff(Node(m1), after).Some?
    ensures k in Diff(Node(m1), after).value <==> !(m1[k].Leaf? && LeafEq(m1[k].v, after[k].v))
    ensures k in Diff(Node(m1), after).value ==> Diff(Node(m1), after).value[k] == after[k]
  {
  }

  /** An empty `after` mapping gives the empty diff, whatever `before` holds: nothing is looked up. */
  lemma EmptyAfter(before: Bundle)
    ensures Diff(before, map[]) == Some(map[])
  {
  }

  /**
    A key holding a mapping on the `after` side and present in `before` is
    reported iff its own diff is non-empty, and then holds exactly that diff:
    a diffed key never holds an empty mapping.
   */
  lemma NestedChange(m1: map<string, Bundle>, after: map<string, Bundle>, k: string)
    requires k in m1 && k in after && after[k].Node?
    requires Diff(Node(m1), after).Some?
    ensures Diff(m1[k], after[k].fields).Some?
    ensures k in Diff(Node(m1), after).value <==> Diff(m1[k], after[k].fields).value != map[]
    ensures k in Diff(Node(m1), after).value
            ==> Diff(Node(m1), after).value[k] == Node(Diff(m1[k], after[k].fields).value)
    ensures k in Diff(Node(m1), after).value ==> Diff(Node(m1), after).value[k] != Node(map[])
  {
    assert !DiffEntry(Node(m1), k, after[k]).Fail?;
  }

  /** A key holding the same value on both sides is not reported. */
  lemma UnchangedKeyOmitted(m1: map<string, Bundle>, after: map<string, Bundle>, k: string)
    requires k in m1 && k in after && m1[k] == after[k]
    requires Diff(Node(m1), after).Some?
    ensures k !in Diff(Node(m1), after).value
  {
    match after[k]
    case Leaf(y) =>
      LeafEqReflexive(y);
      LeafChange(m1, after, k);
    case Node(f) =>
      DiffSelf(f);
      NestedChange(m1, after, k);
  }

  /** Keys only in `before` never appear in the diff. */
  lemma DroppedKeysIgnored(before: Bundle, after: map<string, Bundle>, k: string)
    requires k !in after
    requires Diff(before, after).Some?
    ensures k !in Diff(before, after).value
  {
  }

  /**
    Two bundles fit each other when, wherever `after` holds a mapping under a
    key that `before` also has, `before` holds a mapping there too, all the
    way down; and a mapping on the `after` side at the top needs one on the
    `before` side.
   */
  predicate Fits(before: Bundle, after: Bundle)
    decreases after
  {
    match after
    case Leaf(_) => true
    case Node(m2) =>
      && before.Node?
      && forall k :: k in m2 && k in before.fields ==> Fits(before.fields[k], m2[k])
  }

  /** Fitting bundles never make the differ fail. */
  lemma {:induction false} FitsNeverFails(before: Bundle, after: map<string, Bundle>)
    requires Fits(before, Node(after))
    ensures Diff(before, after).Some?
    decreases Node(after)
  {
    forall k | k in after ensures !DiffEntry(before, k, after[k]).Fail? {
      if k in before.fields && after[k].Node? {
        FitsNeverFails(before.fields[k], after[k].fields);
      }
    }
  }
}
