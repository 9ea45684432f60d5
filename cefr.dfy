/** The six-point CEFR proficiency scale (A1 lowest, C2 highest) and its textual form. */
module Cefr {
  import opened Wrappers

  datatype CefrLevel = A1 | A2 | B1 | B2 | C1 | C2

  /** The scale in its canonical order, the key order of the application's level tables. */
  const AllLevels: seq<CefrLevel> := [A1, A2, B1, B2, C1, C2]

  /** The ordinal rank used for averaging: A1 = 1 ... C2 = 6. */
  function Rank(l: CefrLevel): (r: nat)
    ensures 1 <= r <= 6
    ensures AllLevels[r - 1] == l
  {
    match l
    case A1 => 1
    case A2 => 2
    case B1 => 3
    case B2 => 4
    case C1 => 5
    case C2 => 6
  }

  lemma RankOfAllLevels(i: nat)
    requires i < 6
    ensures Rank(AllLevels[i]) == i + 1
  {
  }

  lemma AllLevelsCover()
    ensures forall l: CefrLevel :: l in AllLevels
  {
    forall l: CefrLevel ensures l in AllLevels {
      assert AllLevels[Rank(l) - 1] == l;
    }
  }

  lemma RankInjective(l: CefrLevel, l': CefrLevel)
    requires Rank(l) == Rank(l')
    ensures l == l'
  {
  }

  /** The level whose rank is `n`, if there is one: the `find` over the rank table. */
  function FromRank(n: int): (r: Option<CefrLevel>)
    ensures r.Some? <==> 1 <= n <= 6
    ensures r.Some? ==> Rank(r.value) == n
  {
    if 1 <= n <= 6 then Some(AllLevels[n - 1]) else None
  }

  /** The string the application uses for a level. */
  function Name(l: CefrLevel): string {
    match l
    case A1 => "A1"
    case A2 => "A2"
    case B1 => "B1"
    case B2 => "B2"
    case C1 => "C1"
    case C2 => "C2"
  }

  /** Membership in the list of valid level strings, turned into the level itself. */
  function Parse(s: string): (r: Option<CefrLevel>)
    ensures r.Some? ==> Name(r.value) == s
    ensures forall l :: Name(l) == s ==> r == Some(l)
  {
    if s == "A1" then Some(A1)
    else if s == "A2" then Some(A2)
    else if s == "B1" then Some(B1)
    else if s == "B2" then Some(B2)
    else if s == "C1" then Some(C1)
    else if s == "C2" then Some(C2)
    else None
  }
}
