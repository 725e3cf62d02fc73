/** What the report of a validation says: every counter is the number of findings that it is for. */
module FindingReport {
  import opened Text
  import opened Schemas
  import opened Lists
  import opened ReviewQuality
  import opened FindingChecks
  import opened FindingMeaning
  import opened FindingPipeline
  import opened FindingValidation

  /** What the findings are counted for, each by itself. */
  function CountedFor(t: TextOps, tables: Tables, findings: seq<Finding>): multiset<Counter> {
    if findings == [] then multiset{}
    else CountedFor(t, tables, findings[..|findings| - 1])
         + Check(t, tables, findings[|findings| - 1], multiset{}).counters
  }

  /** The findings that cite a card that there is not, and have nothing wrong with them before. */
  ghost predicate Invents(t: TextOps, tables: Tables, f: Finding, id: string) {
    f.cardId == Some(id) && Check(t, tables, f, multiset{}).counters[InvalidCard] > 0
  }

  lemma InventedOne(t: TextOps, tables: Tables, f: Finding, c: multiset<Counter>, id: string)
    ensures id in InventedIds(f, Check(t, tables, f, c), c) <==> Invents(t, tables, f, id)
  {
    CountersAdd(t, tables, f, c);
  }

  lemma CountsNoDuplicate(t: TextOps, tables: Tables, f: Finding)
    ensures Check(t, tables, f, multiset{}).counters[Duplicate] == 0
  {
    CheckCounts(t, tables, f, multiset{});
  }

  lemma CountedNext(t: TextOps, tables: Tables, findings: seq<Finding>, f: Finding)
    ensures CountedFor(t, tables, findings + [f])
         == CountedFor(t, tables, findings) + Check(t, tables, f, multiset{}).counters
  {
    assert (findings + [f])[..|findings|] == findings;
  }

  /** How the report moves when the loop reads one more finding. */
  lemma TallyNext(
      t: TextOps, inputs: Inputs, findings: seq<Finding>, f: Finding, received: nat, r: Report, next: Report)
    requires r == TallyBy(Checks(t, inputs), KeyOf(t), findings, received)
    requires next == TallyBy(Checks(t, inputs), KeyOf(t), findings + [f], received)
    ensures var v, unique := Check(t, TablesOf(inputs), f, r.counters), Unique(t, inputs, findings);
            && next.counters == Raised(v.counters, Duplicate,
                                       v.kept.Some? && HasKey(KeyOf(t), unique, KeyOf(t)(v.kept.value)))
            && next.invalidCardIds == r.invalidCardIds + InventedIds(f, v, r.counters)
  {
    var all := findings + [f];
    ChecksAreGood(t, inputs);
    assert all[..|findings|] == findings && all[..|findings| + 1] == all;
    LoopStep(Checks(t, inputs), KeyOf(t), all, |findings|, received);
  }

  /** Every counter but that of duplicates is what the findings are counted for by themselves. */
  lemma {:induction false} CountersTold(
      t: TextOps, inputs: Inputs, findings: seq<Finding>, received: nat, r: Report, k: Counter)
    requires r == TallyBy(Checks(t, inputs), KeyOf(t), findings, received) && k != Duplicate
    ensures r.counters[k] == CountedFor(t, TablesOf(inputs), findings)[k]
    decreases findings
  {
    if findings != [] {
      var before, last := findings[..|findings| - 1], findings[|findings| - 1];
      var earlier := TallyBy(Checks(t, inputs), KeyOf(t), before, received);
      assert before + [last] == findings;
      CountersTold(t, inputs, before, received, earlier, k);
      TallyNext(t, inputs, before, last, received, earlier, r);
      OthersAsBefore(Check(t, TablesOf(inputs), last, earlier.counters).counters, k);
      CountersAdd(t, TablesOf(inputs), last, earlier.counters);
      CountedNext(t, TablesOf(inputs), before, last);
    }
  }

  lemma OthersAsBefore(c: multiset<Counter>, k: Counter)
    requires k != Duplicate
    ensures forall twice: bool :: Raised(c, Duplicate, twice)[k] == c[k]
  {
  }

  /** The duplicates are what passes and is not unique. */
  lemma {:induction false} DuplicatesTold(t: TextOps, inputs: Inputs, findings: seq<Finding>, received: nat, r: Report)
    requires r == TallyBy(Checks(t, inputs), KeyOf(t), findings, received)
    ensures r.counters[Duplicate] + |Unique(t, inputs, findings)| == |Passing(KeptBy(Checks(t, inputs)), findings)|
    decreases findings
  {
    if findings != [] {
      var before, last := findings[..|findings| - 1], findings[|findings| - 1];
      var earlier := TallyBy(Checks(t, inputs), KeyOf(t), before, received);
      assert before + [last] == findings;
      DuplicatesTold(t, inputs, before, received, earlier);
      TallyNext(t, inputs, before, last, received, earlier, r);
      OneMoreDuplicate(t, inputs, before, last, earlier.counters);
      LengthsNext(t, inputs, before, last);
    }
  }

  /** What one more finding adds to the duplicates. */
  lemma OneMoreDuplicate(t: TextOps, inputs: Inputs, findings: seq<Finding>, f: Finding, c: multiset<Counter>)
    ensures var v, g := Check(t, TablesOf(inputs), f, c), Check(t, TablesOf(inputs), f, multiset{}).kept;
            && v.kept == g && forall twice: bool :: Raised(v.counters, Duplicate, twice)[Duplicate]
                                                    == c[Duplicate] + if twice then 1 else 0
  {
    CountersAdd(t, TablesOf(inputs), f, c);
    CountsNoDuplicate(t, TablesOf(inputs), f);
    CheckKeepsAlike(t, TablesOf(inputs), f, c);
  }

  /** What one more finding adds to those that pass and to the unique ones. */
  lemma LengthsNext(t: TextOps, inputs: Inputs, findings: seq<Finding>, f: Finding)
    ensures var g, unique := Check(t, TablesOf(inputs), f, multiset{}).kept, Unique(t, inputs, findings);
            && |Unique(t, inputs, findings + [f])|
               == |unique| + (if g.Some? && !HasKey(KeyOf(t), unique, KeyOf(t)(g.value)) then 1 else 0)
            && |Passing(KeptBy(Checks(t, inputs)), findings + [f])|
               == |Passing(KeptBy(Checks(t, inputs)), findings)| + if g.Some? then 1 else 0
  {
    var all := findings + [f];
    assert all[..|findings|] == findings && all[..|findings| + 1] == all;
    UniqueNext(Checks(t, inputs), KeyOf(t), all, |findings|);
    PassingNext(KeptBy(Checks(t, inputs)), all, |findings|);
  }

  /** The IDs are those of the cards that were invented. */
  lemma {:induction false} IdsTold(
      t: TextOps, inputs: Inputs, findings: seq<Finding>, received: nat, r: Report, id: string)
    requires r == TallyBy(Checks(t, inputs), KeyOf(t), findings, received)
    ensures id in r.invalidCardIds <==> exists f :: f in findings && Invents(t, TablesOf(inputs), f, id)
    decreases findings
  {
    if findings != [] {
      var before, last := findings[..|findings| - 1], findings[|findings| - 1];
      var earlier := TallyBy(Checks(t, inputs), KeyOf(t), before, received);
      assert before + [last] == findings;
      IdsTold(t, inputs, before, received, earlier, id);
      TallyNext(t, inputs, before, last, received, earlier, r);
      InventedOne(t, TablesOf(inputs), last, earlier.counters, id);
    }
  }

  /** The final report: how many came and how many were accepted; each counter but the duplicates is what
      the findings are counted for by themselves; duplicates and findings over the limit are what is missing
      between those that pass, the unique and the accepted ones; and the invented card IDs are listed once. */
  lemma ReportTells(t: TextOps, inputs: Inputs, findings: seq<Finding>)
    ensures var r, tables := FinalReport(t, inputs, findings), TablesOf(inputs);
            var unique, accepted := Unique(t, inputs, findings), Accepted(t, inputs, findings);
            && r.received == |findings| && r.accepted == |accepted| && r.overLimit == |unique| - |accepted|
            && (forall k: Counter :: k != Duplicate ==> r.counters[k] == CountedFor(t, tables, findings)[k])
            && r.counters[Duplicate] == |Passing(KeptBy(Checks(t, inputs)), findings)| - |unique|
            && (forall id :: id in r.invalidCardIds <==> exists f :: f in findings && Invents(t, tables, f, id))
            && forall i, j :: 0 <= i < j < |r.invalidCardIds| ==> r.invalidCardIds[i] != r.invalidCardIds[j]
  {
    var tally := TallyBy(Checks(t, inputs), KeyOf(t), findings, |findings|);
    ChecksAreGood(t, inputs);
    TallyConserves(Checks(t, inputs), KeyOf(t), findings, |findings|);
    forall k: Counter | k != Duplicate
      ensures tally.counters[k] == CountedFor(t, TablesOf(inputs), findings)[k]
    {
      CountersTold(t, inputs, findings, |findings|, tally, k);
    }
    DuplicatesTold(t, inputs, findings, |findings|, tally);
    forall id
      ensures id in tally.invalidCardIds <==> exists f :: f in findings && Invents(t, TablesOf(inputs), f, id)
    {
      IdsTold(t, inputs, findings, |findings|, tally, id);
    }
    SortedSetMeans(tally.invalidCardIds);
  }
}
