/** Sequence numbers and offsets of the Kafka consumer (VESPA/ves-agent/agent/agent.go): each
    event posted live is stamped, counted and recorded under one lock, in memory and in the
    coordination store, whose write errors go unnoticed; a replay computes its start offset from
    the two stored numbers. */
module KafkaSequence {

  /** Go's maps read 0 for a key that they lack. */
  function Get(m: map<int, int>, id: int): int { if id in m then m[id] else 0 }

  /** The four maps, by collector id: sequence and offset, in memory and in the store. */
  datatype Book = Book(memSeq: map<int, int>, memOffset: map<int, int>, zkSeq: map<int, int>, zkOffset: map<int, int>)

  datatype Post = Post(id: int, offset: int, stamp: int)

  /** Where the holder of the lock is in postEventForFault, postEventForNotification or
      postEventForTCA, which do the same steps. */
  datatype Stage = Locked | Sent | Counted | CountStored | OffsetSet | OffsetStored

  datatype Lock = Free | Held(id: int, offset: int, stage: Stage)

  /** `sequenced` and `located` keep count, by collector, of the posts there were when a sequence
      and when an offset last reached the store. */
  datatype World = World(
    lock: Lock, book: Book, posts: seq<Post>, sequenced: map<int, int>, located: map<int, int>)

  /** Begin: some consumer takes the free lock for a message. Go: the holder does its next step;
      if that is a write to the store, it is kept or lost. */
  datatype Action = Begin(id: int, offset: int) | Go(kept: bool)

  predicate Enabled(w: World, a: Action) { w.lock.Free? <==> a.Begin? }

  function Next(w: World, a: Action): World
    requires Enabled(w, a)
  {
    match a
    case Begin(id, offset) => w.(lock := Held(id, offset, Locked))
    case Go(kept) =>
      if w.lock.stage == Locked then
        w.(lock := w.lock.(stage := Sent),
           posts := w.posts + [Post(w.lock.id, w.lock.offset, Get(w.book.memSeq, w.lock.id) + 1)])
      else
        var (l, b) := Record(w.lock, w.book, kept);
        var n := |PostsTo(w.posts, w.lock.id)|;
        World(l, b, w.posts,
              if kept && w.lock.stage == Counted then w.sequenced[w.lock.id := n] else w.sequenced,
              if kept && w.lock.stage == OffsetSet then w.located[w.lock.id := n] else w.located)
  }

  /** The steps after the event has been sent, successfully or not. */
  function Record(l: Lock, b: Book, kept: bool): (Lock, Book)
    requires l.Held? && l.stage != Locked
  {
    match l.stage
    case Sent => (l.(stage := Counted), b.(memSeq := b.memSeq[l.id := Get(b.memSeq, l.id) + 1]))
    case Counted =>
      (l.(stage := CountStored), if kept then b.(zkSeq := b.zkSeq[l.id := Get(b.memSeq, l.id)]) else b)
    case CountStored => (l.(stage := OffsetSet), b.(memOffset := b.memOffset[l.id := l.offset]))
    case OffsetSet => (l.(stage := OffsetStored), if kept then b.(zkOffset := b.zkOffset[l.id := l.offset]) else b)
    case OffsetStored => (Free, b)
  }

  ghost predicate IsRun(w: World, acts: seq<Action>)
    decreases |acts|
  {
    acts == [] || (Enabled(w, acts[0]) && IsRun(Next(w, acts[0]), acts[1..]))
  }

  function After(w: World, acts: seq<Action>): World
    requires IsRun(w, acts)
    decreases |acts|
  {
    if acts == [] then w else After(Next(w, acts[0]), acts[1..])
  }

  /** At start the memory is loaded from the store. */
  function Start(seqs: map<int, int>, offsets: map<int, int>): World {
    World(Free, Book(seqs, offsets, seqs, offsets), [], map[], map[])
  }

  /** The posts to one collector, in order. */
  function PostsTo(posts: seq<Post>, id: int): (r: seq<Post>)
    ensures forall p <- r :: p.id == id
  {
    if posts == [] then []
    else
      var p := posts[|posts| - 1];
      PostsTo(posts[..|posts| - 1], id) + if p.id == id then [p] else []
  }

  lemma PostsToSnoc(posts: seq<Post>, p: Post, id: int)
    ensures PostsTo(posts + [p], id) == if p.id == id then PostsTo(posts, id) + [p] else PostsTo(posts, id)
  {
    assert (posts + [p])[..|posts|] == posts;
  }

  function LastOffset(ps: seq<Post>, first: int): int { if ps == [] then first else ps[|ps| - 1].offset }

  function Rank(s: Stage): nat {
    match s
    case Locked => 0
    case Sent => 1
    case Counted => 2
    case CountStored => 3
    case OffsetSet => 4
    case OffsetStored => 5
  }

  /** The holder of the lock has sent for `id` and is not past the given stage. */
  predicate Behind(l: Lock, id: int, upTo: Stage) {
    l.Held? && l.id == id && 1 <= Rank(l.stage) <= Rank(upTo)
  }

  function Settled(ps: seq<Post>, behind: bool): seq<Post>
    requires behind ==> ps != []
  {
    if behind then ps[..|ps| - 1] else ps
  }

  /** What the four numbers of one collector are, from its posts: of these the first m have their
      sequence in the store, and the first n their offset. */
  ghost predicate Tally(l: Lock, b: Book, ps: seq<Post>, m: int, n: int, id: int, s0: int, o0: int) {
    && (Behind(l, id, OffsetStored) ==> ps != [] && ps[|ps| - 1].offset == l.offset)
    && (forall k | 0 <= k < |ps| :: ps[k].stamp == s0 + k + 1)
    && Get(b.memSeq, id) == s0 + |Settled(ps, Behind(l, id, Sent))|
    && Get(b.memOffset, id) == LastOffset(Settled(ps, Behind(l, id, CountStored)), o0)
    && 0 <= m <= |ps| && Get(b.zkSeq, id) == s0 + m
    && 0 <= n <= |ps| && Get(b.zkOffset, id) == LastOffset(ps[..n], o0)
  }

  function Sequenced(w: World, id: int): int { Get(w.sequenced, id) }

  function Located(w: World, id: int): int { Get(w.located, id) }

  ghost predicate Accounts(w: World, id: int, s0: int, o0: int) {
    Tally(w.lock, w.book, PostsTo(w.posts, id), Sequenced(w, id), Located(w, id), id, s0, o0)
  }

  lemma TallySend(l: Lock, b: Book, ps: seq<Post>, m: int, n: int, id: int, s0: int, o0: int)
    requires l.Held? && l.stage == Locked && l.id == id && Tally(l, b, ps, m, n, id, s0, o0)
    ensures Tally(l.(stage := Sent), b, ps + [Post(id, l.offset, Get(b.memSeq, id) + 1)], m, n, id, s0, o0)
  {
    var qs := ps + [Post(id, l.offset, Get(b.memSeq, id) + 1)];
    assert qs[..|ps|] == ps && qs[..n] == ps[..n];
  }

  /** The locks of other collectors do not matter. */
  lemma TallyOther(l: Lock, k: Lock, b: Book, ps: seq<Post>, m: int, n: int, id: int, s0: int, o0: int)
    requires (l.Held? ==> l.id != id) && (k.Held? ==> k.id != id) && Tally(l, b, ps, m, n, id, s0, o0)
    ensures Tally(k, b, ps, m, n, id, s0, o0)
  {}

  lemma TallySent(l: Lock, b: Book, ps: seq<Post>, qs: seq<Post>, m: int, n: int, id: int, s0: int, o0: int)
    requires l.Held? && l.stage == Locked && Tally(l, b, ps, m, n, id, s0, o0)
    requires qs == if l.id == id then ps + [Post(id, l.offset, Get(b.memSeq, id) + 1)] else ps
    ensures Tally(l.(stage := Sent), b, qs, m, n, id, s0, o0)
  {
    if l.id == id {
      TallySend(l, b, ps, m, n, id, s0, o0);
    } else {
      TallyOther(l, l.(stage := Sent), b, ps, m, n, id, s0, o0);
    }
  }

  /** The four numbers of a collector, apart from the lock. */
  predicate SameNumbers(b: Book, c: Book, id: int) {
    && Get(b.memSeq, id) == Get(c.memSeq, id) && Get(b.memOffset, id) == Get(c.memOffset, id)
    && Get(b.zkSeq, id) == Get(c.zkSeq, id) && Get(b.zkOffset, id) == Get(c.zkOffset, id)
  }

  lemma TallyOwn(l: Lock, b: Book, kept: bool, ps: seq<Post>, m: int, n: int, s0: int, o0: int)
    requires l.Held? && l.stage != Locked && Tally(l, b, ps, m, n, l.id, s0, o0)
    ensures Tally(Record(l, b, kept).0, Record(l, b, kept).1, ps,
                  if kept && l.stage == Counted then |ps| else m,
                  if kept && l.stage == OffsetSet then |ps| else n, l.id, s0, o0)
  {
    var c := Record(l, b, kept).1;
    match l.stage {
      case Sent => assert Get(c.memSeq, l.id) == s0 + |ps|;
      case Counted => assert kept ==> Get(c.zkSeq, l.id) == s0 + |ps|;
      case CountStored => assert Get(c.memOffset, l.id) == l.offset;
      case OffsetSet =>
        assert ps[..|ps|] == ps;
        assert kept ==> Get(c.zkOffset, l.id) == l.offset;
      case OffsetStored =>
    }
  }

  lemma RecordOther(l: Lock, b: Book, kept: bool, ps: seq<Post>, m: int, n: int, id: int, s0: int, o0: int)
    requires l.Held? && l.stage != Locked && l.id != id && Tally(l, b, ps, m, n, id, s0, o0)
    ensures Tally(Record(l, b, kept).0, Record(l, b, kept).1, ps, m, n, id, s0, o0)
  {
    var (k, c) := Record(l, b, kept);
    assert SameNumbers(b, c, id);
    TallyOther(l, k, c, ps, m, n, id, s0, o0);
  }

  /** What a step after the sending does, seen from one collector. */
  lemma RecordStep(w: World, kept: bool, id: int)
    requires w.lock.Held? && w.lock.stage != Locked
    ensures var v, own := Next(w, Go(kept)), kept && w.lock.id == id;
            && v.lock == Record(w.lock, w.book, kept).0 && v.book == Record(w.lock, w.book, kept).1
            && v.posts == w.posts
            && Sequenced(v, id) == (if own && w.lock.stage == Counted then |PostsTo(w.posts, id)| else Sequenced(w, id))
            && Located(v, id) == (if own && w.lock.stage == OffsetSet then |PostsTo(w.posts, id)| else Located(w, id))
  {}

  /** What the sending does. */
  lemma SendStep(w: World, kept: bool, id: int)
    requires w.lock.Held? && w.lock.stage == Locked
    ensures var v, p := Next(w, Go(kept)), Post(w.lock.id, w.lock.offset, Get(w.book.memSeq, w.lock.id) + 1);
            && v.lock == w.lock.(stage := Sent) && v.book == w.book
            && Sequenced(v, id) == Sequenced(w, id) && Located(v, id) == Located(w, id)
            && PostsTo(v.posts, id) == if p.id == id then PostsTo(w.posts, id) + [p] else PostsTo(w.posts, id)
  {
    PostsToSnoc(w.posts, Post(w.lock.id, w.lock.offset, Get(w.book.memSeq, w.lock.id) + 1), id);
  }

  lemma AccountsSend(w: World, kept: bool, id: int, s0: int, o0: int)
    requires w.lock.Held? && w.lock.stage == Locked && Accounts(w, id, s0, o0)
    ensures Accounts(Next(w, Go(kept)), id, s0, o0)
  {
    SendStep(w, kept, id);
    TallySent(w.lock, w.book, PostsTo(w.posts, id), PostsTo(Next(w, Go(kept)).posts, id),
              Sequenced(w, id), Located(w, id), id, s0, o0);
  }

  lemma AccountsRecord(w: World, kept: bool, id: int, s0: int, o0: int)
    requires w.lock.Held? && w.lock.stage != Locked && Accounts(w, id, s0, o0)
    ensures Accounts(Next(w, Go(kept)), id, s0, o0)
  {
    RecordStep(w, kept, id);
    var ps, m, n := PostsTo(w.posts, id), Sequenced(w, id), Located(w, id);
    if w.lock.id == id {
      TallyOwn(w.lock, w.book, kept, ps, m, n, s0, o0);
    } else {
      RecordOther(w.lock, w.book, kept, ps, m, n, id, s0, o0);
    }
  }

  lemma AccountsStep(w: World, a: Action, id: int, s0: int, o0: int)
    requires Enabled(w, a) && Accounts(w, id, s0, o0)
    ensures Accounts(Next(w, a), id, s0, o0)
  {
    if a.Go? {
      if w.lock.stage == Locked {
        AccountsSend(w, a.kept, id, s0, o0);
      } else {
        AccountsRecord(w, a.kept, id, s0, o0);
      }
    }
  }

  lemma {:induction false} AccountsRun(w: World, acts: seq<Action>, id: int, s0: int, o0: int)
    requires IsRun(w, acts) && Accounts(w, id, s0, o0)
    ensures Accounts(After(w, acts), id, s0, o0)
    decreases |acts|
  {
    if acts != [] {
      AccountsStep(w, acts[0], id, s0, o0);
      AccountsRun(Next(w, acts[0]), acts[1..], id, s0, o0);
    }
  }

  lemma StartAccounts(seqs: map<int, int>, offsets: map<int, int>, id: int)
    ensures Accounts(Start(seqs, offsets), id, Get(seqs, id), Get(offsets, id))
  {}

  /** In every run, however the consumers of the collectors take turns and whatever writes to the
      store are lost: a collector's stamps are consecutive from its stored sequence on; memory has
      the last stamp and the last offset whenever the lock is free; and the store has those of the
      last post whose write was kept. */
  lemma StampsAreConsecutive(seqs: map<int, int>, offsets: map<int, int>, acts: seq<Action>, id: int)
    requires IsRun(Start(seqs, offsets), acts)
    ensures var w := After(Start(seqs, offsets), acts);
            var ps := PostsTo(w.posts, id);
            && (forall k | 0 <= k < |ps| :: ps[k].stamp == Get(seqs, id) + k + 1)
            && (w.lock.Free? ==>
                  && Get(w.book.memSeq, id) == Get(seqs, id) + |ps|
                  && Get(w.book.memOffset, id) == LastOffset(ps, Get(offsets, id)))
            && 0 <= Sequenced(w, id) <= |ps| && 0 <= Located(w, id) <= |ps|
            && Get(w.book.zkSeq, id) == Get(seqs, id) + Sequenced(w, id)
            && Get(w.book.zkOffset, id) == LastOffset(ps[..Located(w, id)], Get(offsets, id))
  {
    StartAccounts(seqs, offsets, id);
    AccountsRun(Start(seqs, offsets), acts, id, Get(seqs, id), Get(offsets, id));
  }

  /******* Runs that lose no write *******/

  /** Of a collector's posts all are in the store, but for the one being recorded. */
  predicate AllKept(l: Lock, posts: nat, m: int, n: int, id: int) {
    && m == posts - (if Behind(l, id, Counted) then 1 else 0)
    && n == posts - (if Behind(l, id, OffsetSet) then 1 else 0)
  }

  predicate UpToDate(w: World, id: int) {
    AllKept(w.lock, |PostsTo(w.posts, id)|, Sequenced(w, id), Located(w, id), id)
  }

  lemma KeptSend(l: Lock, posts: nat, m: int, n: int, id: int)
    requires l.Held? && l.stage == Locked && AllKept(l, posts, m, n, id)
    ensures AllKept(l.(stage := Sent), if l.id == id then posts + 1 else posts, m, n, id)
  {}

  lemma KeptRecord(l: Lock, b: Book, posts: nat, m: int, n: int, id: int)
    requires l.Held? && l.stage != Locked && AllKept(l, posts, m, n, id)
    ensures AllKept(Record(l, b, true).0, posts,
                    if l.id == id && l.stage == Counted then posts else m,
                    if l.id == id && l.stage == OffsetSet then posts else n, id)
  {}

  lemma KeptStep(w: World, a: Action, id: int)
    requires Enabled(w, a) && (a.Go? ==> a.kept) && UpToDate(w, id)
    ensures UpToDate(Next(w, a), id)
  {
    if a.Go? {
      var posts, m, n := |PostsTo(w.posts, id)|, Sequenced(w, id), Located(w, id);
      if w.lock.stage == Locked {
        SendStep(w, true, id);
        KeptSend(w.lock, posts, m, n, id);
      } else {
        RecordStep(w, true, id);
        KeptRecord(w.lock, w.book, posts, m, n, id);
      }
    }
  }

  lemma {:induction false} KeptRun(w: World, acts: seq<Action>, id: int)
    requires IsRun(w, acts) && UpToDate(w, id) && forall a <- acts :: a.Go? ==> a.kept
    ensures UpToDate(After(w, acts), id)
    decreases |acts|
  {
    if acts != [] {
      assert acts[0] in acts;
      KeptStep(w, acts[0], id);
      KeptRun(Next(w, acts[0]), acts[1..], id);
    }
  }

  /** In a run that loses no write, memory and store agree whenever the lock is free. */
  lemma StoreFollowsMemory(seqs: map<int, int>, offsets: map<int, int>, acts: seq<Action>, id: int)
    requires IsRun(Start(seqs, offsets), acts) && forall a <- acts :: a.Go? ==> a.kept
    ensures var w := After(Start(seqs, offsets), acts);
            && UpToDate(w, id)
            && (w.lock.Free? ==>
                  && Get(w.book.memSeq, id) == Get(w.book.zkSeq, id)
                  && Get(w.book.memOffset, id) == Get(w.book.zkOffset, id))
  {
    KeptRun(Start(seqs, offsets), acts, id);
    StampsAreConsecutive(seqs, offsets, acts, id);
    var ps := PostsTo(After(Start(seqs, offsets), acts).posts, id);
    assert ps[..|ps|] == ps;
  }

  /******* Replay *******/

  /** `processEvents`: where to start reading for the event stamped s, from the stored offset and
      the stored sequence. The two are read one after the other, without the lock. */
  function StartOffset(offset: int, sequence: int, s: int): int { offset - (sequence - s) }

  ghost predicate Consecutive(ps: seq<Post>) {
    forall k | 0 <= k < |ps| :: ps[k].offset == ps[0].offset + k
  }

  lemma StepGrows(w: World, a: Action, id: int)
    requires Enabled(w, a)
    ensures PostsTo(w.posts, id) <= PostsTo(Next(w, a).posts, id)
  {
    if a.Go? && w.lock.stage == Locked {
      PostsToSnoc(w.posts, Post(w.lock.id, w.lock.offset, Get(w.book.memSeq, w.lock.id) + 1), id);
    }
  }

  lemma {:induction false} RunGrows(w: World, acts: seq<Action>, i: nat, id: int)
    requires IsRun(w, acts) && i <= |acts|
    ensures IsRun(w, acts[..i])
    ensures PostsTo(After(w, acts[..i]).posts, id) <= PostsTo(After(w, acts).posts, id)
    decreases |acts|
  {
    if i > 0 {
      assert acts[..i][1..] == acts[1..][..i - 1];
      RunGrows(Next(w, acts[0]), acts[1..], i - 1, id);
    } else if acts != [] {
      StepGrows(w, acts[0], id);
      RunGrows(Next(w, acts[0]), acts[1..], 0, id);
    }
  }

  /** What the two reads give, the first after i steps of the run and the second at its end. */
  ghost predicate Reads(w1: World, w2: World, id: int, s0: int, o0: int) {
    var ps, m1, m2 := PostsTo(w2.posts, id), Located(w1, id), Sequenced(w2, id);
    && 0 <= m1 <= |ps| && 0 <= m2 <= |ps|
    && (forall k | 0 <= k < |ps| :: ps[k].stamp == s0 + k + 1)
    && Get(w1.book.zkOffset, id) == LastOffset(ps[..m1], o0)
    && Get(w2.book.zkSeq, id) == s0 + m2
  }

  lemma ReadsOf(w1: World, w2: World, id: int, s0: int, o0: int)
    requires Accounts(w1, id, s0, o0) && Accounts(w2, id, s0, o0)
    requires PostsTo(w1.posts, id) <= PostsTo(w2.posts, id)
    ensures Reads(w1, w2, id, s0, o0)
  {
    assert PostsTo(w1.posts, id)[..Located(w1, id)] == PostsTo(w2.posts, id)[..Located(w1, id)];
  }

  lemma TwoReads(seqs: map<int, int>, offsets: map<int, int>, acts: seq<Action>, i: nat, id: int)
    requires IsRun(Start(seqs, offsets), acts) && i <= |acts|
    ensures IsRun(Start(seqs, offsets), acts[..i])
    ensures Reads(After(Start(seqs, offsets), acts[..i]), After(Start(seqs, offsets), acts), id,
                  Get(seqs, id), Get(offsets, id))
  {
    var w, s0, o0 := Start(seqs, offsets), Get(seqs, id), Get(offsets, id);
    StartAccounts(seqs, offsets, id);
    RunGrows(w, acts, i, id);
    AccountsRun(w, acts[..i], id, s0, o0);
    AccountsRun(w, acts, id, s0, o0);
    ReadsOf(After(w, acts[..i]), After(w, acts), id, s0, o0);
  }

  /** The stored numbers locate an event: the start offset is the event's own, minus the posts
      sequenced at the second read, plus the posts located at the first. */
  lemma ReplayStart(seqs: map<int, int>, offsets: map<int, int>, acts: seq<Action>, i: nat, id: int, k: nat)
    requires IsRun(Start(seqs, offsets), acts) && i <= |acts|
    requires IsRun(Start(seqs, offsets), acts[..i]) && Located(After(Start(seqs, offsets), acts[..i]), id) > 0
    requires var ps := PostsTo(After(Start(seqs, offsets), acts).posts, id); Consecutive(ps) && k < |ps|
    ensures var w1, w2 := After(Start(seqs, offsets), acts[..i]), After(Start(seqs, offsets), acts);
            var p := PostsTo(w2.posts, id)[k];
            StartOffset(Get(w1.book.zkOffset, id), Get(w2.book.zkSeq, id), p.stamp)
            == p.offset - (Sequenced(w2, id) - Located(w1, id))
  {
    TwoReads(seqs, offsets, acts, i, id);
  }

  /** A replay finds every stamped event exactly when the collector's messages had consecutive
      offsets and the sequence that the second read finds and the offset that the first finds are
      of one post; if none was located yet, the offset stored before the run must stand in. */
  lemma ReplayExactness(seqs: map<int, int>, offsets: map<int, int>, acts: seq<Action>, i: nat, id: int)
    requires IsRun(Start(seqs, offsets), acts) && i <= |acts|
    ensures IsRun(Start(seqs, offsets), acts[..i])
    ensures var w1, w2 := After(Start(seqs, offsets), acts[..i]), After(Start(seqs, offsets), acts);
            var ps, m1, m2 := PostsTo(w2.posts, id), Located(w1, id), Sequenced(w2, id);
            (forall k | 0 <= k < |ps| ::
               StartOffset(Get(w1.book.zkOffset, id), Get(w2.book.zkSeq, id), ps[k].stamp) == ps[k].offset)
            <==> ps == [] || (Consecutive(ps) && if m1 > 0 then m1 == m2 else ps[0].offset == Get(offsets, id) - m2 + 1)
  {
    TwoReads(seqs, offsets, acts, i, id);
    var w1, w2 := After(Start(seqs, offsets), acts[..i]), After(Start(seqs, offsets), acts);
    AllFoundIff(PostsTo(w2.posts, id), Located(w1, id), Sequenced(w2, id), Get(seqs, id), Get(offsets, id));
  }

  lemma AllFoundIff(ps: seq<Post>, m1: nat, m2: nat, s0: int, o0: int)
    requires m1 <= |ps| && m2 <= |ps| && forall k | 0 <= k < |ps| :: ps[k].stamp == s0 + k + 1
    ensures (forall k | 0 <= k < |ps| :: StartOffset(LastOffset(ps[..m1], o0), s0 + m2, ps[k].stamp) == ps[k].offset)
            <==> ps == [] || (Consecutive(ps) && if m1 > 0 then m1 == m2 else ps[0].offset == o0 - m2 + 1)
  {
    var o := LastOffset(ps[..m1], o0);
    if ps != [] && forall k | 0 <= k < |ps| :: StartOffset(o, s0 + m2, ps[k].stamp) == ps[k].offset {
      assert StartOffset(o, s0 + m2, ps[0].stamp) == ps[0].offset;
      forall k | 0 <= k < |ps| ensures ps[k].offset == ps[0].offset + k {
        assert StartOffset(o, s0 + m2, ps[k].stamp) == ps[k].offset;
      }
    }
  }

  /** With no write lost and the lock free at both reads, the replay starts early by the number of
      posts between. */
  lemma ReplayAcrossPosts(seqs: map<int, int>, offsets: map<int, int>, acts: seq<Action>, i: nat, id: int, k: nat)
    requires IsRun(Start(seqs, offsets), acts) && i <= |acts| && forall a <- acts :: a.Go? ==> a.kept
    requires IsRun(Start(seqs, offsets), acts[..i])
    requires After(Start(seqs, offsets), acts[..i]).lock.Free? && After(Start(seqs, offsets), acts).lock.Free?
    requires PostsTo(After(Start(seqs, offsets), acts[..i]).posts, id) != []
    requires var ps := PostsTo(After(Start(seqs, offsets), acts).posts, id); Consecutive(ps) && k < |ps|
    ensures var w1, w2 := After(Start(seqs, offsets), acts[..i]), After(Start(seqs, offsets), acts);
            var p := PostsTo(w2.posts, id)[k];
            StartOffset(Get(w1.book.zkOffset, id), Get(w2.book.zkSeq, id), p.stamp)
            == p.offset - (|PostsTo(w2.posts, id)| - |PostsTo(w1.posts, id)|)
  {
    KeptRun(Start(seqs, offsets), acts, id);
    KeptRun(Start(seqs, offsets), acts[..i], id);
    ReplayStart(seqs, offsets, acts, i, id, k);
  }

  /******* The consumer's maps as an object *******/

  /** All steps of one post, with the fates of its two writes to the store. */
  function Recorded(b: Book, id: int, offset: int, keptSeq: bool, keptOffset: bool): Book {
    var n := Get(b.memSeq, id) + 1;
    Book(b.memSeq[id := n], b.memOffset[id := offset],
         if keptSeq then b.zkSeq[id := n] else b.zkSeq, if keptOffset then b.zkOffset[id := offset] else b.zkOffset)
  }

  /** A post that runs through leaves its record and one stamped event behind. */
  lemma OnePost(w: World, id: int, offset: int, keptSeq: bool, keptOffset: bool)
    requires w.lock.Free?
    ensures var acts := [Begin(id, offset), Go(true)]
                        + [Go(true), Go(keptSeq), Go(true), Go(keptOffset), Go(true)];
            && IsRun(w, acts)
            && After(w, acts).lock.Free?
            && After(w, acts).book == Recorded(w.book, id, offset, keptSeq, keptOffset)
            && After(w, acts).posts == w.posts + [Post(id, offset, Get(w.book.memSeq, id) + 1)]
  {
    var w1 := Next(w, Begin(id, offset));
    var w2 := Next(w1, Go(true));
    var rest := [Go(true), Go(keptSeq), Go(true), Go(keptOffset), Go(true)];
    OneRecord(w2, keptSeq, keptOffset);
    Chain(w1, Go(true), rest);
    Chain(w, Begin(id, offset), [Go(true)] + rest);
    assert [Begin(id, offset)] + ([Go(true)] + rest) == [Begin(id, offset), Go(true)] + rest;
  }

  lemma OneRecord(w: World, keptSeq: bool, keptOffset: bool)
    requires w.lock.Held? && w.lock.stage == Sent
    ensures var acts := [Go(true), Go(keptSeq), Go(true), Go(keptOffset), Go(true)];
            && IsRun(w, acts)
            && After(w, acts).lock.Free? && After(w, acts).posts == w.posts
            && After(w, acts).book == Recorded(w.book, w.lock.id, w.lock.offset, keptSeq, keptOffset)
  {
    var w3 := Next(w, Go(true));
    var w4 := Next(w3, Go(keptSeq));
    OffsetRecord(w4, keptOffset);
    var rest := [Go(true), Go(keptOffset), Go(true)];
    Chain(w3, Go(keptSeq), rest);
    Chain(w, Go(true), [Go(keptSeq)] + rest);
    assert [Go(true)] + ([Go(keptSeq)] + rest) == [Go(true), Go(keptSeq), Go(true), Go(keptOffset), Go(true)];
  }

  lemma OffsetRecord(w: World, kept: bool)
    requires w.lock.Held? && w.lock.stage == CountStored
    ensures var acts := [Go(true), Go(kept), Go(true)];
            var id, offset := w.lock.id, w.lock.offset;
            && IsRun(w, acts)
            && After(w, acts).lock.Free? && After(w, acts).posts == w.posts
            && After(w, acts).book ==
               w.book.(memOffset := w.book.memOffset[id := offset],
                       zkOffset := if kept then w.book.zkOffset[id := offset] else w.book.zkOffset)
  {
    var w5 := Next(w, Go(true));
    var w6 := Next(w5, Go(kept));
    Chain(w6, Go(true), []);
    Chain(w5, Go(kept), [Go(true)] + []);
    Chain(w, Go(true), [Go(kept)] + ([Go(true)] + []));
    assert [Go(true)] + ([Go(kept)] + ([Go(true)] + [])) == [Go(true), Go(kept), Go(true)];
  }

  lemma Chain(w: World, a: Action, rest: seq<Action>)
    requires Enabled(w, a) && IsRun(Next(w, a), rest)
    ensures IsRun(w, [a] + rest) && After(w, [a] + rest) == After(Next(w, a), rest)
  {
    assert ([a] + rest)[1..] == rest;
  }

  class Consumer {
    var sequenceId: map<int, int>
    var offsetId: map<int, int>
    var storedSequence: map<int, int>
    var storedOffset: map<int, int>

    ghost function View(): Book
      reads this
    {
      Book(sequenceId, offsetId, storedSequence, storedOffset)
    }

    constructor (storedSequence: map<int, int>, storedOffset: map<int, int>)
      ensures View() == Start(storedSequence, storedOffset).book
    {
      this.storedSequence, this.storedOffset := storedSequence, storedOffset;
      this.sequenceId, this.offsetId := storedSequence, storedOffset;
    }

    /** The part under the lock; whether the post succeeds makes no difference, and nobody is told
        of a write to the store that fails. */
    method PostEvent(id: int, offset: int, keptSeq: bool, keptOffset: bool) returns (stamp: int)
      modifies this
      ensures stamp == Get(old(sequenceId), id) + 1
      ensures View() == Recorded(old(View()), id, offset, keptSeq, keptOffset)
    {
      stamp := Get(sequenceId, id) + 1;
      sequenceId := sequenceId[id := Get(sequenceId, id) + 1];
      if keptSeq {
        storedSequence := storedSequence[id := Get(sequenceId, id)];
      }
      offsetId := offsetId[id := offset];
      if keptOffset {
        storedOffset := storedOffset[id := offset];
      }
    }
  }
}
