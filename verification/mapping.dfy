/**
 * The catalog of axis remappings between the sensor's frame and the
 * camera's frame: every reordering of the three vector axes combined with
 * every choice of signs, 6 * 8 = 48 candidates, each with a printable label.
 */
module Mappings {
  import opened Wrappers
  import opened Quaternions

  /** An ordered triple of small integers: a permutation or a sign vector. */
  datatype Triple = Triple(a: int, b: int, c: int) {

    function At(t: nat): int
      requires t < 3
    {
      if t == 0 then a else if t == 1 then b else c
    }

    /** Every entry is a valid index into the vector (x, y, z). */
    predicate InRange() {
      0 <= a < 3 && 0 <= b < 3 && 0 <= c < 3
    }

    /** A bijection of {0, 1, 2}: slot t reads source axis At(t). */
    predicate IsPermutation() {
      InRange() && a != b && b != c && a != c
    }

    predicate IsSignVector() {
      (a == 1 || a == -1) && (b == 1 || b == -1) && (c == 1 || c == -1)
    }
  }

  /** A remapping: slot t of the result is source axis perm.At(t) times signs.At(t). */
  datatype Candidate = Candidate(perm: Triple, signs: Triple) {

    predicate WellFormed() {
      perm.IsPermutation() && signs.IsSignVector()
    }
  }

  /** The permutations in the order the generator visits them (outer loop). */
  const Permutations: seq<Triple> :=
    [Triple(0, 1, 2), Triple(0, 2, 1), Triple(1, 0, 2),
     Triple(1, 2, 0), Triple(2, 0, 1), Triple(2, 1, 0)]

  /** The sign vectors in the order the generator visits them (inner loop). */
  const SignVectors: seq<Triple> :=
    [Triple(1, 1, 1), Triple(1, 1, -1), Triple(1, -1, 1), Triple(1, -1, -1),
     Triple(-1, 1, 1), Triple(-1, 1, -1), Triple(-1, -1, 1), Triple(-1, -1, -1)]

  /** Component t of the vector part of `q`. */
  function Axis(q: Quat, t: nat): real
    requires t < 3
  {
    if t == 0 then q.x else if t == 1 then q.y else q.z
  }

  /**
   * A component multiplied by a sign.  The generator only builds signs 1
   * and -1, and multiplying by those is exact: the component itself or its
   * negation.
   */
  function Scale(v: real, sign: int): real
    requires sign == 1 || sign == -1
  {
    if sign == 1 then v else -v
  }

  /**
   * The remapping closure: reorder and sign-flip the vector part, pass `w`
   * through.
   */
  function Apply(cand: Candidate, q: Quat): (r: Quat)
    requires cand.perm.InRange() && cand.signs.IsSignVector()
    ensures r.w == q.w
    ensures forall t :: 0 <= t < 3 ==>
              Axis(r, t) == Scale(Axis(q, cand.perm.At(t)), cand.signs.At(t))
  {
    var v := [q.x, q.y, q.z];
    Quat(Scale(v[cand.perm.a], cand.signs.a),
         Scale(v[cand.perm.b], cand.signs.b),
         Scale(v[cand.perm.c], cand.signs.c),
         q.w)
  }

  /** The slot into which a permutation sends source axis `u`. */
  function SlotOf(p: Triple, u: int): (t: nat)
    requires p.IsPermutation() && 0 <= u < 3
    ensures t < 3 && p.At(t) == u
  {
    if p.a == u then 0 else if p.b == u then 1 else 2
  }

  /** The remapping that undoes `cand`. */
  function InverseOf(cand: Candidate): (inv: Candidate)
    requires cand.WellFormed()
    ensures inv.WellFormed()
  {
    var p := cand.perm;
    var s := cand.signs;
    var t0, t1, t2 := SlotOf(p, 0), SlotOf(p, 1), SlotOf(p, 2);
    Candidate(Triple(t0, t1, t2), Triple(s.At(t0), s.At(t1), s.At(t2)))
  }

  /** Labels ------------------------------------------------------------ */

  /** The glyph of a sign: anything other than 1 is rendered as a minus. */
  function SignLabel(s: int): (g: string)
    ensures |g| == 1
    ensures g == "+" <==> s == 1
    ensures g == "-" <==> s != 1
  {
    if s == 1 then "+" else "-"
  }

  const AxisNames: seq<string> := ["x", "y", "z"]

  /** One label fragment: a sign glyph followed by an axis name. */
  function Fragment(sign: int, axis: int): (f: string)
    requires 0 <= axis < 3
    ensures |f| == 2 && (f[0] == '+' || f[0] == '-') && f[1] in "xyz"
  {
    SignLabel(sign) + AxisNames[axis]
  }

  /** Three fragments in parentheses, separated by ", ". */
  function Parenthesize(f0: string, f1: string, f2: string): (s: string)
    requires |f0| == |f1| == |f2| == 2
    ensures |s| == 12
    ensures s[0] == '(' && s[3..5] == ", " && s[7..9] == ", " && s[11] == ')'
    ensures s[1..3] == f0 && s[5..7] == f1 && s[9..11] == f2
  {
    "(" + f0 + ", " + f1 + ", " + f2 + ")"
  }

  /** "(s0a0, s1a1, s2a2)" with explicit sign glyphs, 12 characters long. */
  function Label(cand: Candidate): (s: string)
    requires cand.perm.InRange()
    ensures |s| == 12
    ensures s[0] == '(' && s[3..5] == ", " && s[7..9] == ", " && s[11] == ')'
    ensures forall k :: k in {1, 5, 9} ==> s[k] == '+' || s[k] == '-'
    ensures forall k :: k in {2, 6, 10} ==> s[k] in "xyz"
  {
    var p := cand.perm;
    var g := cand.signs;
    var f0, f1, f2 := Fragment(g.a, p.a), Fragment(g.b, p.b), Fragment(g.c, p.c);
    var s := Parenthesize(f0, f1, f2);
    assert s[1] == f0[0] && s[2] == f0[1] by { assert s[1..3] == f0; }
    assert s[5] == f1[0] && s[6] == f1[1] by { assert s[5..7] == f1; }
    assert s[9] == f2[0] && s[10] == f2[1] by { assert s[9..11] == f2; }
    s
  }

  /** The sign a glyph stands for: the inverse of `SignLabel` on 1 and -1. */
  function SignOfGlyph(ch: char): int {
    if ch == '+' then 1 else -1
  }

  function AxisOfName(ch: char): int {
    if ch == 'x' then 0 else if ch == 'y' then 1 else 2
  }

  /** Reads a label back into the candidate it describes. */
  function ParseLabel(s: string): (r: Option<Candidate>)
    ensures r.Some? ==> r.value.perm.InRange() && r.value.signs.IsSignVector()
  {
    if |s| == 12 && s[0] == '(' && s[3..5] == ", " && s[7..9] == ", " && s[11] == ')'
       && s[1] in "+-" && s[5] in "+-" && s[9] in "+-"
       && s[2] in "xyz" && s[6] in "xyz" && s[10] in "xyz"
    then
      Some(Candidate(Triple(AxisOfName(s[2]), AxisOfName(s[6]), AxisOfName(s[10])),
                     Triple(SignOfGlyph(s[1]), SignOfGlyph(s[5]), SignOfGlyph(s[9]))))
    else
      None
  }

  /** The catalog ------------------------------------------------------- */

  /** Entry p * 8 + s pairs permutation p with sign vector s. */
  function Catalog(): (cs: seq<Candidate>)
    ensures |cs| == |Permutations| * |SignVectors| == 48
  {
    seq(48, n requires 0 <= n < 48 => Candidate(Permutations[n / 8], SignVectors[n % 8]))
  }

  function Labels(): (ls: seq<string>)
    ensures |ls| == 48
  {
    seq(48, n requires 0 <= n < 48 => LabelAt(n))
  }

  function LabelAt(n: nat): string
    requires n < 48
  {
    CatalogWellFormed(n);
    Label(Catalog()[n])
  }

  /** The label the generator looks for to choose its default selection. */
  const PreferredLabel: string := "(-z, x, -y)"

  /**
   * The position of the first occurrence of `key` in `xs`, or -1 when there
   * is none (the semantics of the list search the generator uses).
   */
  function FindIndex(xs: seq<string>, key: string): (r: int)
    ensures -1 <= r < |xs|
    ensures r == -1 <==> key !in xs
    ensures r >= 0 ==> xs[r] == key && forall j :: 0 <= j < r ==> xs[j] != key
  {
    if |xs| == 0 then -1
    else if xs[0] == key then 0
    else
      var r := FindIndex(xs[1..], key);
      if r < 0 then -1 else r + 1
  }

  /** The selection the generator leaves behind: the preferred label's index if found, else 0. */
  function DefaultSelection(): (r: int)
    ensures 0 <= r < 48
    ensures PreferredLabel in Labels() ==>
              Labels()[r] == PreferredLabel && forall j :: 0 <= j < r ==> Labels()[j] != PreferredLabel
    ensures PreferredLabel !in Labels() ==> r == 0
  {
    var found := FindIndex(Labels(), PreferredLabel);
    if found >= 0 then found else 0
  }

  /**
   * The generator: the outer loop walks the permutations, the inner loop the
   * sign vectors, appending each candidate and its label; then the preferred
   * label is searched for.  Returns the candidates, their labels and the
   * selection it leaves.
   */
  method GenerateMappings() returns (mappings: seq<Candidate>, labels: seq<string>, current: int)
    ensures mappings == Catalog() && labels == Labels()
    ensures current == DefaultSelection()
  {
    mappings, labels, current := [], [], 0;
    var p := 0;
    while p < |Permutations|
      invariant 0 <= p <= 6
      invariant mappings == Catalog()[..p * 8]
      invariant labels == Labels()[..p * 8]
    {
      mappings, labels := AppendSignVariants(p, mappings, labels);
      p := p + 1;
    }
    PreferredLabelAbsent();
    var index := FindIndex(labels, PreferredLabel);
    if index >= 0 {
      current := index;
    }
  }

  /** The inner loop: append permutation `p` under each sign vector, in order. */
  method AppendSignVariants(p: nat, prefix: seq<Candidate>, prefixLabels: seq<string>)
    returns (mappings: seq<Candidate>, labels: seq<string>)
    requires p < 6
    requires prefix == Catalog()[..p * 8] && prefixLabels == Labels()[..p * 8]
    ensures mappings == Catalog()[..p * 8 + 8] && labels == Labels()[..p * 8 + 8]
  {
    mappings, labels := prefix, prefixLabels;
    var s := 0;
    while s < |SignVectors|
      invariant 0 <= s <= 8
      invariant mappings == Catalog()[..p * 8 + s]
      invariant labels == Labels()[..p * 8 + s]
    {
      var cand := Candidate(Permutations[p], SignVectors[s]);
      CatalogPrefixStep(p, s);
      mappings := mappings + [cand];
      labels := labels + [Label(cand)];
      s := s + 1;
    }
  }

  /** Lemmas ------------------------------------------------------------ */

  /** Appending entry p * 8 + s extends the catalog's and the labels' prefixes by one. */
  lemma CatalogPrefixStep(p: nat, s: nat)
    requires p < 6 && s < 8
    ensures Permutations[p].InRange()
    ensures Catalog()[..p * 8 + s + 1]
            == Catalog()[..p * 8 + s] + [Candidate(Permutations[p], SignVectors[s])]
    ensures Labels()[..p * 8 + s + 1]
            == Labels()[..p * 8 + s] + [Label(Candidate(Permutations[p], SignVectors[s]))]
  {
    var n := p * 8 + s;
    CatalogEntry(p, s);
    assert Labels()[n] == LabelAt(n);
    PrefixGrows(Catalog(), n);
    PrefixGrows(Labels(), n);
  }

  lemma PrefixGrows<T>(xs: seq<T>, n: nat)
    requires n < |xs|
    ensures xs[..n + 1] == xs[..n] + [xs[n]]
  {
  }

  /** Reading back the glyph of a sign 1 or -1 gives that sign. */
  lemma SignGlyphRoundTrip(s: int)
    requires s == 1 || s == -1
    ensures SignOfGlyph(SignLabel(s)[0]) == s
  {
  }

  lemma PermutationsComplete(p: Triple)
    ensures p in Permutations <==> p.IsPermutation()
  {
  }

  lemma SignVectorsComplete(s: Triple)
    ensures s in SignVectors <==> s.IsSignVector()
  {
  }

  /** Every catalog entry is a signed permutation. */
  lemma CatalogWellFormed(n: nat)
    requires n < 48
    ensures Catalog()[n].WellFormed()
  {
    var c := Catalog()[n];
    assert c.perm == Permutations[n / 8];
    assert c.signs == SignVectors[n % 8];
  }

  /** The index formula: entry p * 8 + s uses permutation p and sign vector s. */
  lemma CatalogEntry(p: nat, s: nat)
    requires p < 6 && s < 8
    ensures Catalog()[p * 8 + s] == Candidate(Permutations[p], SignVectors[s])
  {
    var n := p * 8 + s;
    assert n / 8 == p && n % 8 == s;
  }

  /** The position of a permutation in the permutation table. */
  function PermIndex(p: Triple): (i: nat)
    requires p.IsPermutation()
    ensures i < 6 && Permutations[i] == p
  {
    2 * p.a + (if p.b == (if p.a == 0 then 1 else 0) then 0 else 1)
  }

  /** The position of a sign vector in the sign table: its minus signs read as binary digits. */
  function SignIndex(g: Triple): (i: nat)
    requires g.IsSignVector()
    ensures i < 8 && SignVectors[i] == g
  {
    (if g.a == 1 then 0 else 4) + (if g.b == 1 then 0 else 2) + (if g.c == 1 then 0 else 1)
  }

  /** The position of a signed permutation in the catalog. */
  function IndexOf(cand: Candidate): (n: nat)
    requires cand.WellFormed()
    ensures n < 48 && Catalog()[n] == cand
  {
    var pi, si := PermIndex(cand.perm), SignIndex(cand.signs);
    CatalogEntry(pi, si);
    pi * 8 + si
  }

  /** The catalog holds exactly the 48 signed permutations of the three axes. */
  lemma CatalogComplete(cand: Candidate)
    ensures cand in Catalog() <==> cand.WellFormed()
  {
    if cand.WellFormed() {
      var n := IndexOf(cand);
      assert Catalog()[n] == cand;
    }
    if cand in Catalog() {
      var n :| 0 <= n < 48 && Catalog()[n] == cand;
      CatalogWellFormed(n);
    }
  }

  /** No two catalog entries are the same remapping. */
  lemma CatalogDistinct(m: nat, n: nat)
    requires m < 48 && n < 48 && m != n
    ensures Catalog()[m] != Catalog()[n]
  {
    var pm, sm, pn, sn := m / 8, m % 8, n / 8, n % 8;
    assert m == pm * 8 + sm && n == pn * 8 + sn;
    CatalogEntry(pm, sm);
    CatalogEntry(pn, sn);
    assert pm != pn || sm != sn;
    if pm != pn {
      TablesIndexed(pm, 0);
      TablesIndexed(pn, 0);
    } else {
      TablesIndexed(0, sm);
      TablesIndexed(0, sn);
    }
  }

  /** Each table entry sits at the position its index function computes, so the tables have no repeats. */
  lemma TablesIndexed(p: nat, s: nat)
    requires p < 6 && s < 8
    ensures PermIndex(Permutations[p]) == p
    ensures SignIndex(SignVectors[s]) == s
  {
  }

  /** A label reads back as the candidate it was made from. */
  lemma ParseLabelOfLabel(cand: Candidate)
    requires cand.perm.InRange() && cand.signs.IsSignVector()
    ensures ParseLabel(Label(cand)) == Some(cand)
  {
    var s := Label(cand);
    var p := cand.perm;
    var g := cand.signs;
    assert s[1] == SignLabel(g.a)[0] && s[2] == AxisNames[p.a][0];
    assert s[5] == SignLabel(g.b)[0] && s[6] == AxisNames[p.b][0];
    assert s[9] == SignLabel(g.c)[0] && s[10] == AxisNames[p.c][0];
  }

  /** Every string that parses is the label of what it parses to. */
  lemma LabelOfParseLabel(s: string)
    requires ParseLabel(s).Some?
    ensures Label(ParseLabel(s).value) == s
  {
    var l := Label(ParseLabel(s).value);
    assert |l| == |s|;
    forall k | 0 <= k < 12
      ensures l[k] == s[k]
    {
      if k in {3, 4} {
        assert l[3..5][k - 3] == s[3..5][k - 3];
      } else if k in {7, 8} {
        assert l[7..9][k - 7] == s[7..9][k - 7];
      }
    }
  }

  /** Distinct signed permutations have distinct labels. */
  lemma LabelInjective(c1: Candidate, c2: Candidate)
    requires c1.WellFormed() && c2.WellFormed()
    ensures Label(c1) == Label(c2) <==> c1 == c2
  {
    if Label(c1) == Label(c2) {
      ParseLabelOfLabel(c1);
      ParseLabelOfLabel(c2);
    }
  }

  /** The 48 labels are pairwise distinct. */
  lemma LabelsDistinct(m: nat, n: nat)
    requires m < 48 && n < 48 && m != n
    ensures Labels()[m] != Labels()[n]
  {
    CatalogWellFormed(m);
    CatalogWellFormed(n);
    CatalogDistinct(m, n);
    LabelInjective(Catalog()[m], Catalog()[n]);
  }

  /** The first and last entries of the catalog. */
  lemma CatalogEnds()
    ensures Catalog()[0] == Candidate(Triple(0, 1, 2), Triple(1, 1, 1))
    ensures Catalog()[47] == Candidate(Triple(2, 1, 0), Triple(-1, -1, -1))
    ensures Labels()[0] == "(+x, +y, +z)"
    ensures Labels()[47] == "(-z, -y, -x)"
  {
    CatalogEntry(0, 0);
    CatalogEntry(5, 7);
  }

  /** Entry 0 is the identity remapping. */
  lemma FirstIsIdentity(q: Quat)
    ensures Apply(Catalog()[0], q) == q
  {
    CatalogEntry(0, 0);
  }

  /** Entry 11, permutation (0, 2, 1) with signs (+, -, -), on (1, 2, 3, 4). */
  lemma EntryElevenExample()
    ensures Catalog()[11] == Candidate(Triple(0, 2, 1), Triple(1, -1, -1))
    ensures Apply(Catalog()[11], Quat(1.0, 2.0, 3.0, 4.0)) == Quat(1.0, -3.0, -2.0, 4.0)
  {
    CatalogEntry(1, 3);
  }

  /** A signed permutation never changes the length of the quaternion. */
  lemma ApplyPreservesNorm(cand: Candidate, q: Quat)
    requires cand.WellFormed()
    ensures NormSq(Apply(cand, q)) == NormSq(q)
  {
    var p := cand.perm;
    var r := Apply(cand, q);
    assert r.x * r.x == Axis(q, p.a) * Axis(q, p.a);
    assert r.y * r.y == Axis(q, p.b) * Axis(q, p.b);
    assert r.z * r.z == Axis(q, p.c) * Axis(q, p.c);
  }

  /** Every remapping is undone by its inverse, which is again in the catalog. */
  lemma InverseUndoesApply(cand: Candidate, q: Quat)
    requires cand.WellFormed()
    ensures InverseOf(cand) in Catalog()
    ensures Apply(InverseOf(cand), Apply(cand, q)) == q
  {
    CatalogComplete(InverseOf(cand));
    var inv := InverseOf(cand);
    var r := Apply(cand, q);
    var r2 := Apply(inv, r);
    forall u | 0 <= u < 3
      ensures Axis(r2, u) == Axis(q, u)
    {
      var t := SlotOf(cand.perm, u);
      assert inv.perm.At(u) == t && inv.signs.At(u) == cand.signs.At(t);
    }
    assert r2.x == Axis(r2, 0) == q.x;
    assert r2.y == Axis(r2, 1) == q.y;
    assert r2.z == Axis(r2, 2) == q.z;
  }

  /**
   * Every label is 12 characters long and the searched-for literal is 11, so
   * the search fails and the generator's default selection is index 0.
   */
  lemma PreferredLabelAbsent()
    ensures PreferredLabel !in Labels()
    ensures FindIndex(Labels(), PreferredLabel) == -1
    ensures DefaultSelection() == 0
  {
    forall n | 0 <= n < 48
      ensures Labels()[n] != PreferredLabel
    {
      assert |Labels()[n]| == 12;
    }
  }

  /** The candidate the search was meant to find, spelled with an explicit '+', sits at index 37. */
  lemma IntendedCandidateAt37()
    ensures Catalog()[37] == Candidate(Triple(2, 0, 1), Triple(-1, 1, -1))
    ensures Labels()[37] == "(-z, +x, -y)"
    ensures FindIndex(Labels(), "(-z, +x, -y)") == 37
  {
    CatalogEntry(4, 5);
    var key := "(-z, +x, -y)";
    assert Labels()[37] == Label(Catalog()[37]) == key;
    var r := FindIndex(Labels(), key);
    assert key in Labels();
    if r != 37 {
      LabelsDistinct(r, 37);
    }
  }
}
