/**
 What the NF-e items of pulls do to the store (keepEvent of internal/sync/source_dfe.go): an event of
 another author, for a chave the pulling company does not see yet, is skipped by policy. So the pulls
 are the history of what was kept, and an event before its document is lost exactly when another wrote it.
 */
module NfePull {
  import opened NfeTypes
  import opened NfeMerge
  import opened NfeStore
  import opened NfeHistory
  import opened NfeOrder

  /** One item, pulled for a company; its documents are that company's arrivals. */
  datatype Pulled = Pulled(puller: CompanyId, op: Op)

  predicate OwnArrivals(items: seq<Pulled>) {
    forall p :: p in items && p.op.Arrive? ==> p.op.a.company == p.puller
  }

  predicate Authored(companies: map<CompanyId, Cnpj>, p: Pulled) {
    p.op.Happen? && p.puller in companies && p.op.e.author == companies[p.puller]
  }

  /** keepDocument and keepEvent */
  function Keep(db: Db, p: Pulled): Db {
    match p.op
    case Arrive(_) => Step(db, p.op)
    case Happen(e, _) => if Authored(db.companies, p) || Sees(db, p.puller, e.chave) then Step(db, p.op) else db
  }

  method KeepItem(db: Db, p: Pulled) returns (after: Db, skipped: bool)
    ensures after == Keep(db, p)
    ensures skipped <==> p.op.Happen? && !Authored(db.companies, p) && !Sees(db, p.puller, p.op.e.chave)
    ensures skipped ==> after == db
  {
    skipped := false;
    if p.op.Happen? {
      var authored := p.puller in db.companies && p.op.e.author == db.companies[p.puller];
      if !authored {
        var hasLocalDocument := Sees(db, p.puller, p.op.e.chave);
        if !hasLocalDocument {
          return db, true;
        }
      }
    }
    after := Step(db, p.op);
  }

  function PullAll(companies: map<CompanyId, Cnpj>, items: seq<Pulled>): Db {
    if items == [] then EmptyDb(companies) else Keep(PullAll(companies, items[..|items| - 1]), items[|items| - 1])
  }

  // ----- the items that count, without looking at the store -----

  /** An earlier item brought the document to the company that pulls this one. */
  predicate DocumentBefore(items: seq<Pulled>, i: nat, chave: Chave)
    requires i < |items|
  {
    exists j :: 0 <= j < i && items[j].op.Arrive? && items[j].puller == items[i].puller && items[j].op.a.chave == chave
  }

  /** Documents always; an event when the company wrote it or already has its document. */
  predicate Counted(companies: map<CompanyId, Cnpj>, items: seq<Pulled>, i: nat)
    requires i < |items|
  {
    || items[i].op.Arrive?
    || Authored(companies, items[i])
    || DocumentBefore(items, i, items[i].op.e.chave)
  }

  function Counting(companies: map<CompanyId, Cnpj>, items: seq<Pulled>): seq<Op> {
    if items == [] then []
    else
      var n := |items| - 1;
      Counting(companies, items[..n]) + if Counted(companies, items, n) then [items[n].op] else []
  }

  lemma CountedPrefix(companies: map<CompanyId, Cnpj>, items: seq<Pulled>, n: nat, i: nat)
    requires i < n <= |items|
    ensures Counted(companies, items[..n], i) <==> Counted(companies, items, i)
  {
  }

  lemma {:induction false} CountingIs(companies: map<CompanyId, Cnpj>, items: seq<Pulled>)
    ensures forall o :: o in Counting(companies, items) <==>
              exists i :: 0 <= i < |items| && Counted(companies, items, i) && items[i].op == o
  {
    hide Counted;
    if items != [] {
      var n := |items| - 1;
      CountingIs(companies, items[..n]);
      forall i | 0 <= i < n
        ensures Counted(companies, items[..n], i) <==> Counted(companies, items, i)
      {
        CountedPrefix(companies, items, n, i);
      }
      forall o
        ensures o in Counting(companies, items) <==>
                  exists i :: 0 <= i < |items| && Counted(companies, items, i) && items[i].op == o
      {
        if o in Counting(companies, items[..n]) {
          var i :| 0 <= i < n && Counted(companies, items[..n], i) && items[..n][i].op == o;
          assert items[i].op == o;
        }
        if i :| 0 <= i < |items| && Counted(companies, items, i) && items[i].op == o {
          if i < n {
            assert items[..n][i].op == o;
          }
        }
      }
    }
  }

  lemma ArrivedByItems(companies: map<CompanyId, Cnpj>, items: seq<Pulled>, company: CompanyId, chave: Chave)
    requires OwnArrivals(items)
    ensures Arrived(Counting(companies, items), company, chave) <==>
              exists j :: 0 <= j < |items| && items[j].op.Arrive? && items[j].puller == company
                          && items[j].op.a.chave == chave
  {
    CountingIs(companies, items);
    if Arrived(Counting(companies, items), company, chave) {
      var o :| o in Counting(companies, items) && o.Arrive? && o.a.company == company && o.a.chave == chave;
      var j :| 0 <= j < |items| && Counted(companies, items, j) && items[j].op == o;
      assert items[j] in items;
    }
    if j :| 0 <= j < |items| && items[j].op.Arrive? && items[j].puller == company && items[j].op.a.chave == chave {
      assert items[j] in items && Counted(companies, items, j) && items[j].op in Counting(companies, items);
    }
  }

  /** Pulling is running the history of the items that count. */
  lemma {:induction false} PullIsRun(companies: map<CompanyId, Cnpj>, items: seq<Pulled>)
    requires OwnArrivals(items) && WellFormedOps(companies, Counting(companies, items))
    ensures PullAll(companies, items) == Run(companies, Counting(companies, items))
  {
    if items != [] {
      hide WellFormedOps, Step, Sees, Arrived, Counted;
      var n := |items| - 1;
      var front, last := items[..n], items[n];
      var ops, all := Counting(companies, front), Counting(companies, items);
      FrontWellFormed(companies, ops, all);
      PullIsRun(companies, front);
      RunConsistent(companies, ops);
      if last.op.Happen? {
        RunSees(companies, ops, last.puller, last.op.e.chave);
        ArrivedByItems(companies, front, last.puller, last.op.e.chave);
        LastCounts(companies, items);
      } else {
        ArrivalCounts(companies, items);
      }
      if Counted(companies, items, n) {
        assert all[..|all| - 1] == ops;
      } else {
        assert all == ops;
      }
    }
  }

  lemma FrontWellFormed(companies: map<CompanyId, Cnpj>, front: seq<Op>, ops: seq<Op>)
    requires WellFormedOps(companies, ops) && front <= ops
    ensures WellFormedOps(companies, front)
  {
    assert forall o :: o in front ==> o in ops;
  }

  lemma ArrivalCounts(companies: map<CompanyId, Cnpj>, items: seq<Pulled>)
    requires items != [] && items[|items| - 1].op.Arrive?
    ensures Counted(companies, items, |items| - 1)
  {
  }

  lemma LastCounts(companies: map<CompanyId, Cnpj>, items: seq<Pulled>)
    requires items != [] && items[|items| - 1].op.Happen?
    ensures var n := |items| - 1; var last := items[n];
            Counted(companies, items, n) <==>
              || Authored(companies, last)
              || exists j :: 0 <= j < n && items[..n][j].op.Arrive? && items[..n][j].puller == last.puller
                             && items[..n][j].op.a.chave == last.op.e.chave
  {
    var n := |items| - 1;
    if DocumentBefore(items, n, items[n].op.e.chave) {
      var j :| 0 <= j < n && items[j].op.Arrive? && items[j].puller == items[n].puller
               && items[j].op.a.chave == items[n].op.e.chave;
      assert items[..n][j] == items[j];
    }
  }

  // ----- what the skipping costs -----

  /** The item is a registered cancelamento of the chave. */
  predicate Cancels(p: Pulled, chave: Chave) {
    p.op.Happen? && p.op.e.chave == chave && p.op.e.registered && p.op.e.kind.Cancelamento?
  }

  /**
   A pulled NF-e shows as cancelada exactly when some copy says so, or some registered cancelamento came
   after the document did for the same company, or was written by the company that pulled it.
   */
  lemma CancelledExactly(companies: map<CompanyId, Cnpj>, items: seq<Pulled>, chave: Chave)
    requires OwnArrivals(items)
    requires var ops := Counting(companies, items);
             WellFormedOps(companies, ops) && CopiesAgree(AllSaid(ops)) && Copies(ops, chave) != []
    ensures var db, ops := PullAll(companies, items), Counting(companies, items);
            chave in db.documents &&
            (db.documents[chave].situacao == Cancelada <==>
               || WorstSituacao(Copies(ops, chave)) == Cancelada
               || exists i :: 0 <= i < |items| && Cancels(items[i], chave) && Counted(companies, items, i))
  {
    hide Run, PullAll, Counted, WellFormedOps, CopiesAgree, HappenedFacts, CancelFact, Copies, WorstSituacao;
    var ops := Counting(companies, items);
    PullIsRun(companies, items);
    RunSituacao(companies, ops, chave);
    CancelStands(ops, chave);
    CountingIs(companies, items);
    if SaysCancelled(AllSaid(ops), chave) {
      var s :| s in AllSaid(ops) && s.chave == chave && s.fact.registered && s.fact.kind.Cancelamento?;
      var o :| o in ops && o.Happen? && Said(o.e) == s;
      var i :| 0 <= i < |items| && Counted(companies, items, i) && items[i].op == o;
      assert Cancels(items[i], chave);
    }
    if i :| 0 <= i < |items| && Cancels(items[i], chave) && Counted(companies, items, i) {
      assert items[i].op in ops && Said(items[i].op.e) in AllSaid(ops);
    }
  }

  /** Two pulls that keep the same show the same, whatever the order in between. */
  lemma SameKeptSameView(companies: map<CompanyId, Cnpj>, a: seq<Pulled>, b: seq<Pulled>, company: CompanyId,
                         chave: Chave)
    requires OwnArrivals(a) && OwnArrivals(b) && company in companies
    requires var x, y := Counting(companies, a), Counting(companies, b);
             && WellFormedOps(companies, x) && WellFormedOps(companies, y)
             && CopiesAgree(AllSaid(x)) && SameArrivals(x, y)
             && TieResolved(HappenedFacts(x, chave), companies[company])
    ensures View(PullAll(companies, a), company, chave) == View(PullAll(companies, b), company, chave)
  {
    PullIsRun(companies, a);
    PullIsRun(companies, b);
    ArrivalOrderIsIrrelevant(companies, Counting(companies, a), Counting(companies, b), company, chave);
  }
}
