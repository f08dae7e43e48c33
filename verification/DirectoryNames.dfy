/** Directory names for mounted template sources: a name already in use gets the first free numeric
    suffix from 2 on. */
module DirectoryNames {
  import opened Decimal

  function Suffixed(base: string, suffix: nat): string { base + "_" + Digits(suffix) }

  /** The candidate is the base name, an underscore and the decimal numeral of the suffix. */
  lemma SuffixedReads(base: string, suffix: nat)
    ensures var name, n := Suffixed(base, suffix), |base|;
            && |name| > n + 1 && name[..n] == base && name[n] == '_'
            && IsNumeral(name[n + 1..]) && Value(name[n + 1..]) == suffix
  {
    DigitsRead(suffix);
    assert Suffixed(base, suffix)[|base| + 1..] == Digits(suffix);
  }

  lemma SuffixedInjective(base: string, i: nat, j: nat)
    requires Suffixed(base, i) == Suffixed(base, j)
    ensures i == j
  {
    var n := |base| + 1;
    assert Suffixed(base, i)[n..] == Digits(i);
    assert Suffixed(base, j)[n..] == Digits(j);
    DigitsInjective(i, j);
  }

  /** `name` is what the search picks for `base` when the names in `used` are taken: the base itself,
      or its first free suffixed form. */
  ghost predicate Picked(used: set<string>, base: string, name: string) {
    if base !in used then name == base
    else exists k: nat :: k >= 2 && name == Suffixed(base, k) && name !in used
                          && forall j :: 2 <= j < k ==> Suffixed(base, j) in used
  }

  /** The search has one answer. */
  lemma PickedUnique(used: set<string>, base: string, a: string, b: string)
    requires Picked(used, base, a) && Picked(used, base, b)
    ensures a == b
  {
    if base in used {
      var i: nat :| i >= 2 && a == Suffixed(base, i) && a !in used
                    && forall j :: 2 <= j < i ==> Suffixed(base, j) in used;
      var k: nat :| k >= 2 && b == Suffixed(base, k) && b !in used
                    && forall j :: 2 <= j < k ==> Suffixed(base, j) in used;
      assert !(i < k) && !(k < i);
    }
  }

  /** The suffix search. It ends because distinct suffixes give distinct candidates and only finitely
      many names are taken: every miss uses one of them up. */
  method Disambiguate(used: set<string>, base: string) returns (name: string)
    ensures Picked(used, base, name) && name !in used
  {
    name := base;
    if base in used {
      var suffix := 2;
      ghost var untried := used;
      while true
        invariant suffix >= 2 && untried <= used
        invariant forall j :: 2 <= j < suffix ==> Suffixed(base, j) in used
        invariant forall x :: x in used && x !in untried ==> exists j :: 2 <= j < suffix && x == Suffixed(base, j)
        decreases untried
      {
        var candidate := Suffixed(base, suffix);
        if candidate !in used {
          name := candidate;
          return;
        }
        if candidate !in untried {
          var j :| 2 <= j < suffix && candidate == Suffixed(base, j);
          SuffixedInjective(base, j, suffix);
          assert false;
        }
        untried := untried - {candidate};
        suffix := suffix + 1;
      }
    }
  }

  function Taken(names: seq<string>): set<string> { set n | n in names }

  /** Names for the templates in the order their map is iterated, whatever that order is: no two
      templates share a directory, and each keeps its base name if no earlier one has taken it. */
  method AssignDirNames(bases: seq<string>) returns (names: seq<string>)
    ensures |names| == |bases|
    ensures forall i, j :: 0 <= i < j < |names| ==> names[i] != names[j]
    ensures forall i :: 0 <= i < |names| ==> Picked(Taken(names[..i]), bases[i], names[i])
  {
    names := [];
    var used: set<string> := {};
    for i := 0 to |bases|
      invariant |names| == i && used == Taken(names)
      invariant forall a, b :: 0 <= a < b < i ==> names[a] != names[b]
      invariant forall a :: 0 <= a < i ==> Picked(Taken(names[..a]), bases[a], names[a])
    {
      var name := Disambiguate(used, bases[i]);
      ghost var before := names;
      names, used := names + [name], used + {name};
      assert forall a :: 0 <= a <= i ==> names[..a] == before[..a];
      assert before[..i] == before;
    }
  }
}
