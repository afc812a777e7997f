/** `scrape`: run every registered source finder and flatten their record
    sequences, in registration order, into one. */
module Orchestrator {
  import opened Basics
  import opened Seqs
  import opened Records

  /** The source finders the scraper defines. */
  datatype Finder = EdwardJones | Ameriprise | Stifel | Janney | RaymondJames | Schwab | Lpl

  /** The finders `scrape` runs, in order; Janney and Raymond James are
      commented out of the list. */
  const Registered: seq<Finder> := [EdwardJones, Ameriprise, Stifel, Schwab, Lpl]

  /** The finders of the older compiled `scrape`: Edward Jones alone. */
  const CompiledRegistered: seq<Finder> := [EdwardJones]

  /** The record sequences the finders fulfilled with, in finder order. */
  function Fulfilled(finders: seq<Finder>, run: Finder -> Result<seq<AdvisorInfo>>): (blocks: seq<seq<AdvisorInfo>>)
    requires forall i :: 0 <= i < |finders| ==> run(finders[i]).Ok?
    ensures |blocks| == |finders| && forall i :: 0 <= i < |finders| ==> run(finders[i]) == Ok(blocks[i])
  {
    seq(|finders|, i requires 0 <= i < |finders| => run(finders[i]).value)
  }

  /** `(await Promise.all(finders.map(fun => fun(zip, browser)))).flat()`,
      where `run(f)` is how finder f's promise settles. */
  function RunFinders(finders: seq<Finder>, run: Finder -> Result<seq<AdvisorInfo>>): (r: Result<seq<AdvisorInfo>>)
    ensures r.Ok? <==> forall i :: 0 <= i < |finders| ==> run(finders[i]).Ok?
    ensures r.Ok? ==> r.value == Flatten(Fulfilled(finders, run))
    ensures r.Ok? ==> |r.value| == TotalLength(Fulfilled(finders, run))
    ensures r.Err? ==> exists i :: 0 <= i < |finders| && run(finders[i]) == Err(r.error)
  {
    match MapAll(finders, run)
    case Err(e) => Err(e)
    case Ok(blocks) =>
      assert blocks == Fulfilled(finders, run);
      FlattenLength(blocks);
      Ok(Flatten(blocks))
  }

  /** `scrape` as the TypeScript source defines it. */
  function Scrape(run: Finder -> Result<seq<AdvisorInfo>>): (r: Result<seq<AdvisorInfo>>)
    ensures r.Ok? <==> forall f :: f in Registered ==> run(f).Ok?
    ensures r.Err? ==> exists f :: f in Registered && run(f) == Err(r.error)
    ensures r.Ok? ==> |r.value| == TotalLength(Fulfilled(Registered, run))
  {
    RunFinders(Registered, run)
  }

  /** `scrape` as the older compiled JavaScript defines it. */
  function ScrapeCompiled(run: Finder -> Result<seq<AdvisorInfo>>): (r: Result<seq<AdvisorInfo>>)
    ensures r.Ok? <==> run(EdwardJones).Ok?
    ensures r.Err? ==> r == run(EdwardJones)
  {
    assert CompiledRegistered[0] == EdwardJones;
    RunFinders(CompiledRegistered, run)
  }

  /** There is no per-source failure isolation: `scrape` fulfils exactly
      when every registered finder fulfils. */
  lemma ScrapeFulfilsIffAllFinders(run: Finder -> Result<seq<AdvisorInfo>>)
    ensures Scrape(run).Ok? <==> run(EdwardJones).Ok? && run(Ameriprise).Ok? && run(Stifel).Ok?
                                 && run(Schwab).Ok? && run(Lpl).Ok?
  {
    assert Registered[0] == EdwardJones && Registered[1] == Ameriprise && Registered[2] == Stifel;
    assert Registered[3] == Schwab && Registered[4] == Lpl;
  }

  /** When every finder fulfils, the result is their records concatenated
      in registration order, with nothing removed or merged. */
  lemma ScrapeConcatenates(run: Finder -> Result<seq<AdvisorInfo>>)
    requires run(EdwardJones).Ok? && run(Ameriprise).Ok? && run(Stifel).Ok?
    requires run(Schwab).Ok? && run(Lpl).Ok?
    ensures Scrape(run) == Ok(run(EdwardJones).value + run(Ameriprise).value + run(Stifel).value
                              + run(Schwab).value + run(Lpl).value)
  {
    ScrapeFulfilsIffAllFinders(run);
    var blocks := Fulfilled(Registered, run);
    assert blocks == [run(EdwardJones).value, run(Ameriprise).value, run(Stifel).value,
                      run(Schwab).value, run(Lpl).value];
    forall k | 0 <= k < 5 ensures Flatten(blocks[k..]) == blocks[k] + Flatten(blocks[k + 1..]) {
      assert blocks[k..][1..] == blocks[k + 1..];
    }
    assert blocks[5..] == [];
    assert blocks[0..] == blocks;
    assert Flatten(blocks) == blocks[0] + blocks[1] + blocks[2] + blocks[3] + blocks[4];
    assert Scrape(run) == RunFinders(Registered, run);
    assert Scrape(run).value == Flatten(blocks);
  }

  /** A rejected finder rejects `scrape` with its error when the finders
      before it fulfilled, whatever the finders after it do. */
  lemma ScrapeRejectsWithFinder(run: Finder -> Result<seq<AdvisorInfo>>, i: nat)
    requires i < |Registered| && run(Registered[i]).Err?
    requires forall j :: 0 <= j < i ==> run(Registered[j]).Ok?
    ensures Scrape(run) == Err(run(Registered[i]).error)
  {
    MapAllFirstError(Registered, run, i);
  }

  /** The finders left out of the list are never run: `scrape` depends only
      on how the registered finders settle. */
  lemma ScrapeIgnoresDisabledFinders(run1: Finder -> Result<seq<AdvisorInfo>>, run2: Finder -> Result<seq<AdvisorInfo>>)
    requires forall f :: f in Registered ==> run1(f) == run2(f)
    ensures Scrape(run1) == Scrape(run2)
  {
    MapAllAgrees(Registered, run1, run2);
  }

  lemma {:induction false} MapAllAgrees<A, B>(xs: seq<A>, f: A -> Result<B>, g: A -> Result<B>)
    requires forall x :: x in xs ==> f(x) == g(x)
    ensures MapAll(xs, f) == MapAll(xs, g)
  {
    if xs != [] {
      assert xs[0] in xs;
      MapAllAgrees(xs[1..], f, g);
    }
  }

  /** The compiled `scrape` passes on the Edward Jones finder's result. */
  lemma ScrapeCompiledIsEdwardJones(run: Finder -> Result<seq<AdvisorInfo>>)
    ensures ScrapeCompiled(run) == run(EdwardJones)
  {
    if run(EdwardJones).Ok? {
      var blocks := Fulfilled(CompiledRegistered, run);
      assert blocks[1..] == [];
      assert Flatten(blocks) == blocks[0] + Flatten(blocks[1..]);
      assert Flatten(blocks[1..]) == [];
      assert CompiledRegistered[0] == EdwardJones;
      assert ScrapeCompiled(run).value == blocks[0];
    } else {
      MapAllFirstError(CompiledRegistered, run, 0);
    }
  }
}
