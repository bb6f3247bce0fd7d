/** The completion cache's producers (src/board/cards_on_board/jobs/worker.rs):
    a `Worker` yields, one item per call, the completions of a partial hand in
    order of the strength they give, and a `WorkCollector` keeps what it has
    yielded so far. */
module Workers {
  import opened Components
  import opened Stonecards

  /** `Job`: the partial hand whose completions are listed (declared in jobs.rs). */
  datatype Job = Job(cards: StoneCards)

  /** The contents of the sorted completion files the file-backed workers read:
      `triplets_sorted.txt` for the empty hand, `duos_sorted_<num><color>` for a
      hand of one card. */
  datatype BackingTables = BackingTables(triplets: seq<seq<Card>>, duos: Card -> seq<seq<Card>>)

  /** `Worker`: the state of one completion stream. */
  datatype Worker =
    | LessThanTwo(lines: seq<seq<Card>>)
    | Two(rest: seq<Card>)
    | Full
  {
    /** The items this worker has still to yield. */
    function Pending(): (p: seq<seq<Card>>)
      ensures Two? ==> |p| == |rest| && forall i :: 0 <= i < |p| ==> p[i] == [rest[i]]
      ensures LessThanTwo? ==> p == lines
      ensures Full? ==> p == []
    {
      match this
      case LessThanTwo(lines) => lines
      case Two(rest) => seq(|rest|, i requires 0 <= i < |rest| => [rest[i]])
      case Full => []
    }

    /** `work`: the next pending item and the worker that remains, or `None` once
        the stream is exhausted. */
    function Work(): (r: (Option<seq<Card>>, Worker))
      ensures Pending() == [] ==> r.0 == None && r.1.Pending() == []
      ensures Pending() != [] ==> r.0 == Some(Pending()[0]) && r.1.Pending() == Pending()[1..]
    {
      match this
      case Full => (None, Full)
      case Two(rest) =>
        if rest == [] then (None, Two([])) else (Some([rest[0]]), Two(rest[1..]))
      case LessThanTwo(lines) =>
        if lines == [] then (None, LessThanTwo([])) else (Some(lines[0]), LessThanTwo(lines[1..]))
    }
  }

  /** The sort key of `two`: the strength of the hand completed by `card`. */
  function CompletionKey(hand: seq<Card>, card: Card): int
    requires |hand| == 2
  {
    Score(hand + [card])
  }

  /** The keys of s do not decrease. */
  ghost predicate SortedByKey(hand: seq<Card>, s: seq<Card>)
    requires |hand| == 2
  {
    forall i, j :: 0 <= i < j < |s| ==> CompletionKey(hand, s[i]) <= CompletionKey(hand, s[j])
  }

  /** The cards of `all` not among `hand`, in order. */
  function Without(all: seq<Card>, hand: seq<Card>): (r: seq<Card>)
    ensures forall c :: c in r <==> c in all && c !in hand
    ensures |r| <= |all|
  {
    if all == [] then []
    else
      var rest := Without(all[1..], hand);
      if all[0] in hand then rest else [all[0]] + rest
  }

  lemma {:induction false} WithoutCount(all: seq<Card>, hand: seq<Card>, c: Card)
    ensures multiset(Without(all, hand))[c] == if c in hand then 0 else multiset(all)[c]
  {
    if all != [] {
      WithoutCount(all[1..], hand, c);
      assert all == [all[0]] + all[1..];
    }
  }

  /** The filtered list `two` sorts: every valid card not in the hand, once each. */
  lemma CandidatesOnce(hand: seq<Card>, c: Card)
    ensures multiset(Without(AllCards(), hand))[c] == if c in hand then 0 else 1
  {
    WithoutCount(AllCards(), hand, c);
    AllCardsOnce(c);
  }

  /** s[..i+1] is sorted by key apart from position j, whose key is at most those
      after it. */
  ghost predicate SortedAround<T>(key: T -> int, s: seq<T>, i: nat, j: nat)
    requires j <= i < |s|
  {
    && (forall p, q :: 0 <= p < q <= i && p != j && q != j ==> key(s[p]) <= key(s[q]))
    && (forall q :: j < q <= i ==> key(s[j]) <= key(s[q]))
  }

  /** Swapping s[j] with a larger left neighbour moves the hole one place down. */
  lemma SwapDown<T>(key: T -> int, s: seq<T>, i: nat, j: nat)
    requires 0 < j <= i < |s| && SortedAround(key, s, i, j)
    requires key(s[j - 1]) > key(s[j])
    ensures SortedAround(key, s[j - 1 := s[j]][j := s[j - 1]], i, j - 1)
    ensures multiset(s[j - 1 := s[j]][j := s[j - 1]]) == multiset(s)
  {
  }

  /** One pass of the insertion sort: moves a[i] down past the larger keys, so
      that a[..i+1] is sorted when a[..i] was. */
  method InsertAt<T>(a: array<T>, key: T -> int, i: nat)
    requires i < a.Length
    requires forall p, q :: 0 <= p < q < i ==> key(a[p]) <= key(a[q])
    modifies a
    ensures multiset(a[..]) == multiset(old(a[..]))
    ensures forall p, q :: 0 <= p < q <= i ==> key(a[p]) <= key(a[q])
  {
    var j := i;
    while j > 0 && key(a[j - 1]) > key(a[j])
      invariant 0 <= j <= i
      invariant multiset(a[..]) == multiset(old(a[..]))
      invariant SortedAround(key, a[..], i, j)
      decreases j
    {
      SwapDown(key, a[..], i, j);
      a[j - 1], a[j] := a[j], a[j - 1];
      j := j - 1;
    }
  }

  /** `two`: every card not in the 2-card hand, sorted by the strength of the
      hand it completes (an insertion sort here, a stable sort in the source). */
  method TwoCompletions(cards: StoneCards) returns (r: seq<Card>)
    requires |cards.cards| == 2
    ensures multiset(r) == multiset(Without(AllCards(), cards.cards))
    ensures forall c :: multiset(r)[c] == if c in cards.cards then 0 else 1
    ensures SortedByKey(cards.cards, r)
  {
    var hand := cards.cards;
    var candidates := Without(AllCards(), hand);
    var a := new Card[|candidates|](i requires 0 <= i < |candidates| => candidates[i]);
    assert a[..] == candidates;
    var key := (c: Card) => CompletionKey(hand, c);
    for i := 0 to a.Length
      invariant multiset(a[..]) == multiset(candidates)
      invariant forall p, q :: 0 <= p < q < i ==> key(a[p]) <= key(a[q])
    {
      InsertAt(a, key, i);
    }
    r := a[..];
    forall c ensures multiset(r)[c] == if c in hand then 0 else 1 {
      CandidatesOnce(hand, c);
    }
  }

  /** `Worker::new`: no completions for a full hand, the sorted single cards for
      a 2-card hand, the table rows for smaller hands. */
  method NewWorker(cards: StoneCards, tables: BackingTables) returns (w: Worker)
    requires cards.Valid()
    ensures cards.Len() == 3 ==> w == Full
    ensures cards.Len() == 2 ==> w.Two? && SortedByKey(cards.cards, w.rest)
                                 && forall c :: multiset(w.rest)[c] == if c in cards.cards then 0 else 1
    ensures cards.Len() == 1 ==> w.Pending() == tables.duos(cards.cards[0])
    ensures cards.Len() == 0 ==> w.Pending() == tables.triplets
  {
    match cards.Len()
    case 3 =>
      w := Full;
    case 2 =>
      var sorted := TwoCompletions(cards);
      w := Two(sorted);
    case 1 =>
      w := LessThanTwo(tables.duos(cards.At(0)));
    case 0 =>
      w := LessThanTwo(tables.triplets);
  }

  /** `WorkCollector`: the worker and the items it has yielded so far. */
  class WorkCollector {
    var worker: Worker
    var data: seq<seq<Card>>
    /** The job it was made for, and the whole stream its worker yields. */
    ghost const job: Job
    ghost const Output: seq<seq<Card>>

    /** What was collected and what is still pending make up the stream. */
    ghost predicate Valid()
      reads this
    {
      data + worker.Pending() == Output
    }

    /** Nothing collected yet, and the stream is the one `Worker::new` gives for
        the job: none for a full hand, the sorted single cards for two cards, the
        table rows for fewer. */
    ghost predicate Started(job: Job, tables: BackingTables)
      reads this
      requires job.cards.Valid()
    {
      && Valid() && this.job == job && data == []
      && (job.cards.Len() == 3 ==> Output == [])
      && (job.cards.Len() == 2 ==>
            && worker.Two? && Output == worker.Pending()
            && SortedByKey(job.cards.cards, worker.rest)
            && forall c :: multiset(worker.rest)[c] == if c in job.cards.cards then 0 else 1)
      && (job.cards.Len() == 1 ==> Output == tables.duos(job.cards.cards[0]))
      && (job.cards.Len() == 0 ==> Output == tables.triplets)
    }

    /** `new`. */
    constructor (job: Job, tables: BackingTables)
      requires job.cards.Valid()
      ensures Started(job, tables)
    {
      var w := NewWorker(job.cards, tables);
      worker := w;
      data := [];
      this.job := job;
      Output := w.Pending();
    }

    /** `work`: appends the next item of the stream, if there is one. */
    method Work()
      requires Valid()
      modifies this
      ensures Valid()
      ensures |old(data)| < |Output| ==> data == old(data) + [Output[|old(data)|]]
      ensures |old(data)| == |Output| ==> data == old(data)
    {
      var (item, next) := worker.Work();
      worker := next;
      if item.Some? {
        data := data + [item.value];
      }
      assert Output == old(data) + old(worker.Pending());
    }

    /** `len`: the number of items collected, never more than the stream holds. */
    function Len(): (n: nat)
      reads this
      requires Valid()
      ensures n == |data| && n <= |Output|
    {
      |data|
    }

    /** `index`: the i-th collected item is the i-th item of the stream. */
    function At(i: nat): (item: seq<Card>)
      reads this
      requires Valid() && i < |data|
      ensures item == Output[i]
    {
      data[i]
    }
  }

  // ---------------------------------------------------------------------
  // Card decoding of `parse_line`

  /** The two-digit record of a card in the completion tables: the number
      as tens digit, the colour as units digit. */
  function EncodeCard(c: Card): (n: Byte)
    ensures n / 10 == c.num && n % 10 == c.color
  {
    10 * c.num + c.color
  }

  /** The decoding `parse_line` performs, as written: the number is `n / 10`
      and the colour `n & 10`, a bitwise and. */
  function DecodeCardAsWritten(n: Byte): (r: Option<Card>)
    ensures r.Some? ==> r.value.num == n / 10
  {
    BuildCard(n / 10, ((n as bv8) & 10) as int)
  }

  /** As written, no record decodes to a card of any colour but 2. */
  lemma AsWrittenOnlyColourTwo(n: Byte)
    ensures DecodeCardAsWritten(n).Some? ==> DecodeCardAsWritten(n).value.color == 2
  {
    var b := (n as bv8) & 10;
    assert b == 0 || b == 2 || b == 8 || b == 10;
  }

  /** The record 11 of the card (1, 1) is rejected (the source panics). */
  lemma AsWrittenRejectsCard11()
    ensures EncodeCard(Card(1, 1)) == 11
    ensures DecodeCardAsWritten(EncodeCard(Card(1, 1))) == None
  {
    assert (11 as bv8) & 10 == 10;
  }

  /** The decoding as evidently intended: the colour is the units digit. */
  function DecodeCard(n: Byte): (r: Option<Card>)
    ensures r.Some? <==> 1 <= n / 10 <= NumOfNums && 1 <= n % 10 <= NumOfColors
  {
    BuildCard(n / 10, n % 10)
  }

  /** The intended decoding inverts the record of every card ... */
  lemma DecodeEncode(c: Card)
    ensures DecodeCard(EncodeCard(c)) == Some(c)
  {
  }

  /** ... and accepts only such records. */
  lemma EncodeDecode(n: Byte)
    ensures DecodeCard(n).Some? ==> EncodeCard(DecodeCard(n).value) == n
  {
  }
}
