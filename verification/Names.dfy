/** Client names: a secondary client is named `<primary>%%<number>`. */
module Names {
  import opened Bytes

  const PERCENT: byte := 0x25
  const SECONDARY_SEP: Text := [PERCENT, PERCENT]

  predicate SepAt(s: Text, i: nat) {
    i + 1 < |s| && s[i] == PERCENT && s[i + 1] == PERCENT
  }

  /** Position of the first separator, or the length of the name if there is none. */
  function FindSep(s: Text): (p: nat)
    ensures p <= |s|
    ensures p < |s| ==> SepAt(s, p)
    ensures forall i: nat :: i < p ==> !SepAt(s, i)
  {
    FindSepFrom(s, 0)
  }

  function FindSepFrom(s: Text, k: nat): (p: nat)
    requires k <= |s|
    requires forall i: nat :: i < k ==> !SepAt(s, i)
    ensures p <= |s|
    ensures p < |s| ==> SepAt(s, p)
    ensures forall i: nat :: i < p ==> !SepAt(s, i)
    decreases |s| - k
  {
    if k == |s| || SepAt(s, k) then k else FindSepFrom(s, k + 1)
  }

  /** The primary name every client is created with: the part before the first separator. */
  function PrimaryOf(name: Text): Text {
    name[..FindSep(name)]
  }

  predicate IsPrimary(name: Text) {
    PrimaryOf(name) == name
  }

  lemma PrimaryHasNoSep(name: Text)
    ensures IsPrimary(name) <==> forall i: nat :: !SepAt(name, i)
  {
    var p := FindSep(name);
    if IsPrimary(name) {
      assert p == |name|;
    } else {
      assert p < |name| && SepAt(name, p);
    }
  }

  /** The primary name of a primary name is itself, so a secondary's owner is never a secondary. */
  lemma PrimaryOfIsPrimary(name: Text)
    ensures IsPrimary(PrimaryOf(name))
  {
    var p := PrimaryOf(name);
    forall i: nat ensures !SepAt(p, i) {
      assert SepAt(p, i) ==> SepAt(name, i);
    }
    PrimaryHasNoSep(p);
  }

  /** `format!("{}{}{}", name, SECONDARY_SEP, id)`. */
  function SecondaryName(primary: Text, id: Text): Text {
    primary + SECONDARY_SEP + id
  }

  /** Two running numbers give two names. */
  lemma SecondaryNamesDiffer(primary: Text, id: Text, other: Text)
    ensures SecondaryName(primary, id) == SecondaryName(primary, other) <==> id == other
    ensures SecondaryName(primary, id)[..|primary|] == primary
    ensures |SecondaryName(primary, id)| == |primary| + 2 + |id|
  {
    var n := |primary| + 2;
    assert SecondaryName(primary, id)[n..] == id && SecondaryName(primary, other)[n..] == other;
  }

  /** A generated secondary name belongs to the client it was generated for exactly when that
      client's name does not end in `%`; otherwise it belongs to the name without that sign. */
  lemma SecondaryNameOwner(primary: Text, id: Text)
    requires IsPrimary(primary)
    ensures !IsPrimary(SecondaryName(primary, id))
    ensures PrimaryOf(SecondaryName(primary, id)) == primary
       <==> (primary == [] || primary[|primary| - 1] != PERCENT)
    ensures primary != [] && primary[|primary| - 1] == PERCENT
       ==> PrimaryOf(SecondaryName(primary, id)) == primary[..|primary| - 1]
  {
    var s := SecondaryName(primary, id);
    var n := |primary|;
    PrimaryHasNoSep(primary);
    PrimaryHasNoSep(s);
    assert SepAt(s, n);
    forall i: nat | i + 1 < n ensures !SepAt(s, i) {
      assert !SepAt(primary, i);
    }
    if n > 0 && primary[n - 1] == PERCENT {
      assert SepAt(s, n - 1);
      assert FindSep(s) == n - 1;
      assert s[..n - 1] == primary[..n - 1];
    } else {
      assert n > 0 ==> !SepAt(s, n - 1);
      assert FindSep(s) == n;
      assert s[..n] == primary;
    }
  }
}
