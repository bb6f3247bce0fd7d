/** The completion cache (src/board/cards_on_board/jobs.rs): one collector per
    distinct partial hand, and cursors into their streams that skip the
    completions that use a card already on the board. */
module Jobs {
  import opened Components
  import opened Stonecards
  import opened Board
  import opened Workers

  /** `JobIdentifier`: a cursor into the stream of one job. */
  datatype JobIdentifier = JobIdentifier(job: Job, index: nat)

  /** Some card of the completion is already on the board. */
  ghost predicate UsesPresent(cards: seq<Card>, present: set<Card>)
  {
    exists c :: c in cards && c in present
  }

  /** The `any(is_present)` test of `update_job`. */
  function AnyPresent(cards: seq<Card>, present: PresentCards): (b: bool)
    reads present, present.cards
    requires present.Valid()
    ensures b <==> UsesPresent(cards, present.Present)
  {
    if cards == [] then false
    else present.IsPresent(cards[0]) || AnyPresent(cards[1..], present)
  }

  /** `JobManager`: a map from job to its collector. */
  class JobManager {
    var workers: map<Job, WorkCollector>

    /** Every collector is well formed and belongs to its own key (so no two
        keys share one). */
    ghost predicate Valid()
      reads this, workers.Values
    {
      forall j :: j in workers ==> workers[j].Valid() && workers[j].job == j
    }

    constructor ()
      ensures Valid() && workers == map[]
    {
      workers := map[];
    }

    /** `add_jobs`: adds a fresh collector for every distinct job not yet in the
        map; collectors already there are kept as they are. */
    method AddJobs(jobs: seq<StoneCards>, tables: BackingTables)
      requires Valid()
      requires forall i :: 0 <= i < |jobs| ==> jobs[i].Valid()
      modifies this
      ensures Valid()
      ensures forall j :: j in workers <==> j in old(workers) || j.cards in jobs
      ensures forall j :: j in old(workers) ==> workers[j] == old(workers[j])
      ensures forall j :: j in workers && j !in old(workers) ==> fresh(workers[j]) && workers[j].Started(j, tables)
    {
      var allJobs := set c | c in jobs;
      var done: set<StoneCards> := {};
      while allJobs - done != {}
        invariant Valid()
        invariant done <= allJobs
        invariant forall j :: j in workers <==> j in old(workers) || j.cards in done
        invariant forall j :: j in old(workers) ==> workers[j] == old(workers[j])
        invariant forall j :: j in workers && j !in old(workers) ==> fresh(workers[j]) && workers[j].Started(j, tables)
        decreases |allJobs - done|
      {
        var cards :| cards in allJobs - done;
        ghost var before := workers;
        AddJob(cards, tables);
        forall j | j in workers && j !in old(workers)
          ensures fresh(workers[j]) && workers[j].Started(j, tables)
        {
          if j in before {
            assert workers[j] == before[j];
          }
        }
        done := done + {cards};
      }
      assert done == allJobs;
      assert forall c :: c in allJobs <==> c in jobs;
    }

    /** One step of `add_jobs`: `entry(job).or_insert(collector)`. */
    method AddJob(cards: StoneCards, tables: BackingTables)
      requires Valid() && cards.Valid()
      modifies this
      ensures Valid()
      ensures forall j :: j in workers <==> j in old(workers) || j == Job(cards)
      ensures forall j :: j in old(workers) ==> workers[j] == old(workers[j])
      ensures Job(cards) !in old(workers) ==>
                fresh(workers[Job(cards)]) && workers[Job(cards)].Started(Job(cards), tables)
    {
      var job := Job(cards);
      var collector := new WorkCollector(job, tables);
      if job !in workers {
        workers := workers[job := collector];
      }
    }

    /** `get`: the completion under the cursor, the index-th of its job's stream. */
    function Get(id: JobIdentifier): (r: seq<Card>)
      reads this, workers.Values
      requires Valid() && id.job in workers && id.index < |workers[id.job].data|
      ensures r == workers[id.job].Output[id.index]
    {
      workers[id.job].At(id.index)
    }

    /** `update_job`: moves the cursor forward to the first completion, at or
        after it, that uses no present card, collecting one more item whenever
        it reaches the end of what was collected. The stream must hold such a
        completion (the source asserts that collecting succeeds). */
    method UpdateJob(id: JobIdentifier, present: PresentCards) returns (next: JobIdentifier)
      requires Valid() && present.Valid()
      requires id.job in workers && id.index < |workers[id.job].data|
      requires exists k :: id.index <= k < |workers[id.job].Output|
                 && !UsesPresent(workers[id.job].Output[k], present.Present)
      modifies workers[id.job]
      ensures Valid() && workers == old(workers)
      ensures next.job == id.job && id.index <= next.index < |workers[id.job].data|
      ensures !UsesPresent(Get(next), present.Present)
      ensures forall k :: id.index <= k < next.index ==> UsesPresent(workers[id.job].Output[k], present.Present)
      ensures old(workers[id.job].data) <= workers[id.job].data
      ensures |workers[id.job].data| == if next.index < |old(workers[id.job].data)|
                                        then |old(workers[id.job].data)| else next.index + 1
    {
      var collector := workers[id.job];
      var index := id.index;
      while AnyPresent(collector.At(index), present)
        invariant collector.Valid() && collector.job == id.job
        invariant id.index <= index < |collector.data|
        invariant forall k :: id.index <= k < index ==> UsesPresent(collector.Output[k], present.Present)
        invariant old(collector.data) <= collector.data
        invariant |collector.data| == if index < |old(collector.data)| then |old(collector.data)| else index + 1
        decreases |collector.Output| - index
      {
        index := index + 1;
        if index == collector.Len() {
          collector.Work();
          assert index != collector.Len();
        }
      }
      next := JobIdentifier(id.job, index);
    }
  }

  /** `BestOption`: the cache with the empty hand's job, and a cursor per player
      and stone. */
  class BestOption {
    const manager: JobManager
    var jobIds: seq<seq<JobIdentifier>>

    /** `new`: the manager holds the empty hand's job only, and every cursor
        points at the start of that job. */
    constructor (tables: BackingTables)
      ensures fresh(manager) && manager.Valid()
      ensures manager.workers.Keys == {Job(NewStoneCards())}
      ensures manager.workers[Job(NewStoneCards())].Started(Job(NewStoneCards()), tables)
      ensures |jobIds| == NumOfPlayers
      ensures forall p :: 0 <= p < NumOfPlayers ==> |jobIds[p]| == NumOfStones
      ensures forall p, s :: 0 <= p < NumOfPlayers && 0 <= s < NumOfStones ==>
                jobIds[p][s] == JobIdentifier(Job(NewStoneCards()), 0)
    {
      var m := new JobManager();
      m.AddJobs([NewStoneCards()], tables);
      assert m.workers.Keys == {Job(NewStoneCards())} by {
        forall j ensures j in m.workers <==> j == Job(NewStoneCards()) {
          assert j.cards in [NewStoneCards()] <==> j == Job(NewStoneCards());
        }
      }
      var ids: seq<seq<JobIdentifier>> := [];
      for p := 0 to NumOfPlayers
        invariant |ids| == p
        invariant forall q :: 0 <= q < p ==> ids[q] == seq(NumOfStones, _ => JobIdentifier(Job(NewStoneCards()), 0))
      {
        var row: seq<JobIdentifier> := [];
        for s := 0 to NumOfStones
          invariant row == seq(s, _ => JobIdentifier(Job(NewStoneCards()), 0))
        {
          row := row + [JobIdentifier(Job(NewStoneCards()), 0)];
        }
        ids := ids + [row];
      }
      manager := m;
      jobIds := ids;
    }
  }
}
