/**
 The code migration table of codec.go: a chain of renamings followed for at most eight steps,
 and when its end is final.
 */
module Migration {
  import opened Common
  import opened Text

  type Migrations = map<string, string>

  // One step; a code without an entry, or mapped to itself, stays.
  function Next(m: Migrations, c: string): string {
    if c in m then m[c] else c
  }

  function Iterate(m: Migrations, c: string, n: nat): string
    decreases n
  {
    if n == 0 then c else Iterate(m, Next(m, c), n - 1)
  }

  predicate Terminal(m: Migrations, c: string) {
    Next(m, c) == c
  }

  // migrateCode
  function Migrated(m: Migrations, c: string): string {
    if c == "" then "" else Iterate(m, c, 8)
  }

  lemma {:induction false} IterateTerminal(m: Migrations, c: string, n: nat)
    requires Terminal(m, c)
    ensures Iterate(m, c, n) == c
  {
    if n > 0 {
      IterateTerminal(m, c, n - 1);
    }
  }

  lemma {:induction false} IterateSum(m: Migrations, c: string, i: nat, j: nat)
    ensures Iterate(m, c, i + j) == Iterate(m, Iterate(m, c, i), j)
    decreases i
  {
    if i > 0 {
      IterateSum(m, Next(m, c), i - 1, j);
    }
  }

  class Registry {
    var codeMig: Migrations

    constructor ()
      ensures codeMig == map[]
    {
      codeMig := map[];
    }

    method RegisterCodeMigration(oldCode: string, newCode: string)
      modifies this
      ensures codeMig == old(codeMig)[oldCode := newCode]
    {
      codeMig := codeMig[oldCode := newCode];
    }

    // Follows the chain, leaving early at a code that stays.
    method MigrateCode(c: string) returns (code: string)
      ensures code == Migrated(codeMig, c)
    {
      code := c;
      if code == "" {
        return;
      }
      for i := 0 to 8
        invariant Iterate(codeMig, code, 8 - i) == Iterate(codeMig, c, 8)
      {
        if code !in codeMig || codeMig[code] == code {
          IterateTerminal(codeMig, code, 8 - i);
          return;
        }
        code := codeMig[code];
      }
    }
  }

  // The entries that change a code.
  function Moving(m: Migrations): set<string> {
    set c | c in m && m[c] != c
  }

  // No chain of changes comes back to where it started.
  ghost predicate NoCycles(m: Migrations) {
    forall c, n: nat :: n > 0 && Iterate(m, c, n) == c ==> Terminal(m, c)
  }

  // The codes met in the first n steps.
  function Visited(m: Migrations, c: string, n: nat): seq<string>
    decreases n
  {
    if n == 0 then [] else [c] + Visited(m, Next(m, c), n - 1)
  }

  lemma {:induction false} VisitedAt(m: Migrations, c: string, n: nat)
    ensures |Visited(m, c, n)| == n
    ensures forall i :: 0 <= i < n ==> Visited(m, c, n)[i] == Iterate(m, c, i)
    decreases n
  {
    if n > 0 {
      VisitedAt(m, Next(m, c), n - 1);
    }
  }

  lemma {:induction false} DistinctCount(s: seq<string>, within: set<string>)
    requires forall i, j :: 0 <= i < j < |s| ==> s[i] != s[j]
    requires forall i :: 0 <= i < |s| ==> s[i] in within
    ensures |s| <= |within|
  {
    if s != [] {
      var rest := s[1..];
      assert forall i :: 0 <= i < |rest| ==> rest[i] == s[i + 1];
      DistinctCount(rest, within - {s[0]});
    }
  }

  // A chain of nine changes; the guard of the source allows eight.
  predicate NineChanges(m: Migrations, s: seq<string>) {
    |s| == 9 && s[0] != "" && (forall i :: 0 <= i < 9 ==> s[i] in Moving(m))
    && forall i :: 0 <= i < 8 ==> m[s[i]] == s[i + 1]
  }

  // What is met on the way to a code that still changes all changes.
  lemma IterateMoves(m: Migrations, c: string, i: nat)
    requires i <= 8 && !Terminal(m, Iterate(m, c, 8))
    ensures Iterate(m, c, i) in Moving(m) && m[Iterate(m, c, i)] == Iterate(m, c, i + 1)
  {
    var d := Iterate(m, c, i);
    IterateSum(m, c, i, 8 - i);
    if Terminal(m, d) {
      IterateTerminal(m, d, 8 - i);
    }
    IterateSum(m, c, i, 1);
    assert Iterate(m, d, 1) == Next(m, d);
  }

  lemma VisitedMoves(m: Migrations, c: string)
    requires c != "" && !Terminal(m, Iterate(m, c, 8))
    ensures NineChanges(m, Visited(m, c, 9))
    ensures Visited(m, c, 9)[0] == c && Visited(m, c, 9)[8] == Iterate(m, c, 8)
  {
    var s := Visited(m, c, 9);
    VisitedAt(m, c, 9);
    forall i | 0 <= i < 9 ensures s[i] in Moving(m) && (i < 8 ==> m[s[i]] == s[i + 1]) {
      IterateMoves(m, c, i);
    }
  }

  lemma {:induction false} ChainIsIterated(m: Migrations, s: seq<string>, i: nat)
    requires NineChanges(m, s) && i <= 8
    ensures Iterate(m, s[0], i) == s[i]
  {
    if i > 0 {
      ChainIsIterated(m, s, i - 1);
      IterateSum(m, s[0], i - 1, 1);
      assert s[i - 1] in Moving(m) && Iterate(m, s[i - 1], 1) == Next(m, s[i - 1]);
    }
  }

  /** A migrated code is final if and only if no chain of nine changes starts at the code. */
  lemma FinalUnlessNineChanges(m: Migrations, c: string)
    requires c != ""
    ensures Terminal(m, Migrated(m, c)) <==> !exists s :: NineChanges(m, s) && s[0] == c
  {
    if !Terminal(m, Migrated(m, c)) {
      VisitedMoves(m, c);
    }
    forall s | NineChanges(m, s) && s[0] == c ensures !Terminal(m, Migrated(m, c)) {
      ChainIsIterated(m, s, 8);
      assert s[8] in Moving(m);
    }
  }

  /** What a registrar can check: migration always ends on a final code if and only if the
      table holds no chain of nine changes. Cycles are such chains. */
  lemma FinalityIsChainFree(m: Migrations)
    ensures (forall c :: c != "" ==> Terminal(m, Migrated(m, c))) <==> !exists s :: NineChanges(m, s)
  {
    if s :| NineChanges(m, s) {
      FinalUnlessNineChanges(m, s[0]);
      assert s[0] != "" && !Terminal(m, Migrated(m, s[0]));
    } else {
      forall c | c != "" ensures Terminal(m, Migrated(m, c)) {
        FinalUnlessNineChanges(m, c);
      }
    }
  }

  /** Pigeonhole: without cycles a chain settles within as many steps as there are changing
      entries. */
  lemma ChainSettles(m: Migrations, c: string, n: nat)
    requires NoCycles(m) && |Moving(m)| <= n
    ensures Terminal(m, Iterate(m, c, n))
  {
    if !Terminal(m, Iterate(m, c, n)) {
      var s := Visited(m, c, n + 1);
      VisitedAt(m, c, n + 1);
      forall i | 0 <= i < |s| ensures s[i] in Moving(m) {
        if Terminal(m, s[i]) {
          IterateSum(m, c, i, n - i);
          IterateTerminal(m, s[i], n - i);
        }
      }
      forall i, j | 0 <= i < j < |s| ensures s[i] != s[j] {
        IterateSum(m, c, i, j - i);
        assert Iterate(m, s[i], j - i) == s[j] && s[i] in Moving(m);
        assert !Terminal(m, s[i]);
      }
      DistinctCount(s, Moving(m));
    }
  }

  /** With at most eight changing entries and no cycle, a migrated code is final: migrating it
      again, or decoding a second time, changes nothing. */
  lemma MigrationIsIdempotent(m: Migrations, c: string)
    requires NoCycles(m) && |Moving(m)| <= 8
    ensures c != "" ==> Terminal(m, Migrated(m, c))
    ensures Migrated(m, Migrated(m, c)) == Migrated(m, c)
  {
    ChainSettles(m, c, 8);
    IterateTerminal(m, Iterate(m, c, 8), 8);
  }

  // c is on a cycle of k renamings, and on none that is shorter.
  ghost predicate OnCycle(m: Migrations, c: string, k: nat) {
    k > 0 && Iterate(m, c, k) == c && forall j :: 0 < j < k ==> Iterate(m, c, j) != c
  }

  // Eight steps lead back to where they started.
  lemma EightStepsReturn(m: Migrations, c: string)
    ensures Iterate(m, c, 8) == c <==> OnCycle(m, c, 1) || OnCycle(m, c, 2) || OnCycle(m, c, 4) || OnCycle(m, c, 8)
  {
    var k := ShortestReturn(m, c, 8);
    if k.Some? {
      CycleReturns(m, c, k.value);
    }
  }

  lemma {:induction false} ShortestReturn(m: Migrations, c: string, n: nat) returns (k: Option<nat>)
    ensures k.Some? ==> k.value <= n && OnCycle(m, c, k.value)
    ensures k.None? ==> forall j :: 0 < j <= n ==> Iterate(m, c, j) != c
  {
    if n == 0 {
      k := None;
    } else {
      k := ShortestReturn(m, c, n - 1);
      if k.None? && Iterate(m, c, n) == c {
        k := Some(n);
      }
    }
  }

  lemma CycleReturns(m: Migrations, c: string, k: nat)
    requires k <= 8 && OnCycle(m, c, k)
    ensures Iterate(m, c, 8) == c <==> k == 1 || k == 2 || k == 4 || k == 8
    ensures forall j :: OnCycle(m, c, j) ==> j == k
  {
    IterateSum(m, c, k, 8 - k);
    if 2 * k <= 8 {
      IterateSum(m, c, k, 8 - 2 * k);
    }
    if 3 * k <= 8 {
      IterateSum(m, c, k, 8 - 3 * k);
    }
    forall j | OnCycle(m, c, j) ensures j == k {
    }
  }

  // A chain of nine changes whose end is not empty and on no cycle of length 1, 2, 4 or 8.
  ghost predicate MovesOn(m: Migrations, s: seq<string>) {
    NineChanges(m, s) && s[8] != ""
    && !(OnCycle(m, s[8], 1) || OnCycle(m, s[8], 2) || OnCycle(m, s[8], 4) || OnCycle(m, s[8], 8))
  }

  /** Migrating twice is migrating once, for every code, if and only if no chain of nine changes
      ends on a non-empty code outside all cycles whose length divides eight. */
  lemma IdempotentUnlessNineChanges(m: Migrations)
    ensures (forall c :: Migrated(m, Migrated(m, c)) == Migrated(m, c)) <==> !exists s :: MovesOn(m, s)
  {
    if s :| MovesOn(m, s) {
      ChainIsIterated(m, s, 8);
      EightStepsReturn(m, s[8]);
      assert Migrated(m, s[0]) == s[8] && Migrated(m, s[8]) != s[8];
    } else {
      forall c ensures Migrated(m, Migrated(m, c)) == Migrated(m, c) {
        var d := Migrated(m, c);
        if d != "" && !Terminal(m, d) {
          VisitedMoves(m, c);
          EightStepsReturn(m, d);
          assert !MovesOn(m, Visited(m, c, 9));
        } else if d != "" {
          IterateTerminal(m, d, 8);
        }
      }
    }
  }

  // The codes x, xx, ... and a table that renames each of them to the next.
  const NINE_CODES: seq<string> := seq(9, (n: nat) => Repeat('x', n + 1))
  const NINE_STEPS: Migrations := map c | c in NINE_CODES :: c + "x"

  /** Nine entries can be too many: here migration stops one step short of the end. */
  lemma NineEntriesAreNotFinal()
    ensures NineChanges(NINE_STEPS, NINE_CODES)
    ensures Migrated(NINE_STEPS, NINE_CODES[0]) == NINE_CODES[8] && !Terminal(NINE_STEPS, NINE_CODES[8])
  {
    var m, s := NINE_STEPS, NINE_CODES;
    forall i | 0 <= i < 9 ensures s[i] in Moving(m) && m[s[i]] == Repeat('x', i + 2) {
      assert s[i] + "x" == Repeat('x', i + 2);
      assert |m[s[i]]| == |s[i]| + 1;
    }
    ChainIsIterated(m, s, 8);
  }
}
