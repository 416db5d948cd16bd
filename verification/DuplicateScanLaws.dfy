/**
 What the duplicate-read scan returns, on the messages themselves. A call has a
 place in the conversation; a read is a duplicate when a later read of its path
 has the same result and no edit of the path lies between the two.
 */
module DuplicateScanLaws {
  import opened Wrappers
  import opened LiveLog
  import opened DuplicateRead
  import opened DuplicateScan

  /** A message and an element of its content. */
  datatype Place = Place(message: nat, element: nat)

  predicate Before(p: Place, q: Place) { p.message < q.message || (p.message == q.message && p.element < q.element) }

  /** An assistant message holds a tool call there. */
  predicate CallAt(ms: seq<Message>, p: Place) {
    && p.message < |ms| && ms[p.message].role == "assistant" && ms[p.message].content.Array?
    && p.element < |ms[p.message].content.elements| && ms[p.message].content.elements[p.element].Object?
    && Scanned(ms[p.message].content.elements[p.element].block)
  }

  function BlockAt(ms: seq<Message>, p: Place): (b: Block)
    requires CallAt(ms, p)
    ensures Scanned(b)
  {
    ms[p.message].content.elements[p.element].block
  }

  function IdAt(ms: seq<Message>, p: Place): (id: Id)
    requires CallAt(ms, p)
  {
    BlockAt(ms, p).id.value
  }

  predicate ResultAt(ms: seq<Message>, r: nat, id: Id) {
    r < |ms| && ms[r].role == "toolResult" && ms[r].toolCallId == Some(id)
  }

  /** The last result message of a call has this text. */
  ghost predicate HasText(env: Environment, ms: seq<Message>, id: Id, text: string) {
    exists r: nat :: LastResultAt(ms, r, id) && text == env.textOf(ms[r])
  }

  predicate LastResultAt(ms: seq<Message>, r: nat, id: Id) {
    ResultAt(ms, r, id) && forall s | r < s < |ms| :: !ResultAt(ms, s, id)
  }

  /** A read of the path whose result has this hash. */
  ghost predicate ReadOf(env: Environment, ms: seq<Message>, path: string, p: Place, hash: string) {
    && CallAt(ms, p) && BlockAt(ms, p).name == "read" && env.pathOf(BlockAt(ms, p)) == Some(path)
    && exists text :: HasText(env, ms, IdAt(ms, p), text) && hash == env.hash(text)
  }

  ghost predicate EditOf(env: Environment, ms: seq<Message>, path: string, p: Place) {
    && CallAt(ms, p) && (BlockAt(ms, p).name == "edit" || BlockAt(ms, p).name == "write")
    && env.pathOf(BlockAt(ms, p)) == Some(path)
  }

  /** The read at `q` repeats the read at `p`. */
  ghost predicate Repeats(env: Environment, ms: seq<Message>, path: string, p: Place, q: Place) {
    && Before(p, q) && (exists h :: ReadOf(env, ms, path, p, h) && ReadOf(env, ms, path, q, h))
    && !exists e :: Before(p, e) && Before(e, q) && EditOf(env, ms, path, e)
  }

  ghost predicate Duplicated(env: Environment, ms: seq<Message>, path: string, p: Place) {
    exists q :: Repeats(env, ms, path, p, q)
  }

  // ----- the calls in order ----------------------------------------------

  function ElementPlaces(es: seq<Element>, m: nat, n: nat): (ps: seq<Place>)
    requires n <= |es|
  {
    if n == 0 then []
    else ElementPlaces(es, m, n - 1)
         + (if es[n - 1].Object? && Scanned(es[n - 1].block) then [Place(m, n - 1)] else [])
  }

  function MessagePlaces(msg: Message, m: nat): (ps: seq<Place>) {
    if msg.role == "assistant" && msg.content.Array? then ElementPlaces(msg.content.elements, m, |msg.content.elements|)
    else []
  }

  /** The places of all calls, in order. */
  function Places(ms: seq<Message>): (ps: seq<Place>) {
    if ms == [] then [] else Places(ms[..|ms| - 1]) + MessagePlaces(ms[|ms| - 1], |ms| - 1)
  }

  ghost predicate InOrder(ps: seq<Place>) { forall i, j | 0 <= i < j < |ps| :: Before(ps[i], ps[j]) }

  lemma {:induction false} ElementPlacesExact(es: seq<Element>, m: nat, n: nat)
    requires n <= |es|
    ensures InOrder(ElementPlaces(es, m, n))
    ensures forall p :: p in ElementPlaces(es, m, n) <==>
                        p.message == m && p.element < n && es[p.element].Object? && Scanned(es[p.element].block)
  {
    if n > 0 {
      ElementPlacesExact(es, m, n - 1);
      var before := ElementPlaces(es, m, n - 1);
      assert forall i | 0 <= i < |before| :: before[i] in before;
    }
  }

  lemma {:induction false} PlacesExact(ms: seq<Message>)
    ensures InOrder(Places(ms)) && forall p :: p in Places(ms) <==> CallAt(ms, p)
  {
    if ms != [] {
      var n := |ms| - 1;
      PlacesExact(ms[..n]);
      MessageExact(ms[n], n);
      var before, last := Places(ms[..n]), MessagePlaces(ms[n], n);
      assert forall p :: CallAt(ms, p) <==> CallAt(ms[..n], p) || (p.message == n && CallAt(ms, p));
      assert forall i | 0 <= i < |before| :: before[i] in before;
      assert forall i | 0 <= i < |last| :: last[i] in last;
    }
  }

  lemma MessageExact(msg: Message, m: nat)
    ensures InOrder(MessagePlaces(msg, m))
    ensures forall p :: p in MessagePlaces(msg, m) <==>
                        && p.message == m && msg.role == "assistant" && msg.content.Array?
                        && p.element < |msg.content.elements| && msg.content.elements[p.element].Object?
                        && Scanned(msg.content.elements[p.element].block)
  {
    if msg.content.Array? { ElementPlacesExact(msg.content.elements, m, |msg.content.elements|); }
  }

  function BlockList(e: Element): (r: seq<Block>) { if e.Object? then [e.block] else [] }

  lemma Assoc<T>(a: seq<T>, b: seq<T>, c: seq<T>)
    ensures (a + b) + c == a + (b + c)
  {}

  lemma ObjectBlocksHead(es: seq<Element>)
    requires es != []
    ensures ObjectBlocks(es) == BlockList(es[0]) + ObjectBlocks(es[1..])
  {}

  lemma {:induction false} ObjectBlocksAppend(es: seq<Element>, e: Element)
    ensures ObjectBlocks(es + [e]) == ObjectBlocks(es) + BlockList(e)
  {
    ObjectBlocksHead(es + [e]);
    if es == [] {
      assert ([] + [e])[1..] == [];
    } else {
      assert (es + [e])[1..] == es[1..] + [e];
      ObjectBlocksAppend(es[1..], e);
      Assoc(BlockList(es[0]), ObjectBlocks(es[1..]), BlockList(e));
    }
  }

  lemma ScannedAppend(bs: seq<Block>, b: Block)
    ensures ScannedBlocks(bs + [b]) == ScannedBlocks(bs) + (if Scanned(b) then [b] else [])
  {
    assert (bs + [b])[..|bs|] == bs;
  }

  /** The blocks are those of the elements at the places. */
  ghost predicate Located(es: seq<Element>, bs: seq<Block>, ps: seq<Place>) {
    |bs| == |ps| && forall i | 0 <= i < |ps| ::
                      ps[i].element < |es| && es[ps[i].element].Object? && bs[i] == es[ps[i].element].block
  }

  lemma LocatedAppend(es: seq<Element>, bs: seq<Block>, ps: seq<Place>, m: nat, k: nat)
    requires Located(es, bs, ps) && k < |es| && es[k].Object?
    ensures Located(es, bs + [es[k].block], ps + [Place(m, k)]) && Located(es, bs + [], ps + [])
  {}

  function AddedBlock(e: Element): (r: seq<Block>) { if e.Object? && Scanned(e.block) then [e.block] else [] }

  function AddedPlace(es: seq<Element>, m: nat, k: nat): (r: seq<Place>)
    requires k < |es|
  {
    if es[k].Object? && Scanned(es[k].block) then [Place(m, k)] else []
  }

  lemma LocatedAdd(es: seq<Element>, bs: seq<Block>, ps: seq<Place>, m: nat, k: nat)
    requires Located(es, bs, ps) && k < |es|
    ensures Located(es, bs + AddedBlock(es[k]), ps + AddedPlace(es, m, k))
  {
    if es[k].Object? { LocatedAppend(es, bs, ps, m, k); }
  }

  lemma BlocksStep(es: seq<Element>, n: nat)
    requires 0 < n <= |es|
    ensures ScannedBlocks(ObjectBlocks(es[..n])) == ScannedBlocks(ObjectBlocks(es[..n - 1])) + AddedBlock(es[n - 1])
  {
    var bs := ObjectBlocks(es[..n - 1]);
    assert es[..n] == es[..n - 1] + [es[n - 1]];
    ObjectBlocksAppend(es[..n - 1], es[n - 1]);
    if es[n - 1].Object? { ScannedAppend(bs, es[n - 1].block); } else { assert bs + [] == bs; }
  }

  lemma PlacesStep(es: seq<Element>, m: nat, n: nat)
    requires 0 < n <= |es|
    ensures ElementPlaces(es, m, n) == ElementPlaces(es, m, n - 1) + AddedPlace(es, m, n - 1)
  {}

  lemma {:induction false} ElementBlocks(es: seq<Element>, m: nat, n: nat)
    requires n <= |es|
    ensures Located(es, ScannedBlocks(ObjectBlocks(es[..n])), ElementPlaces(es, m, n))
  {
    if n == 0 {
      assert es[..0] == [];
    } else {
      ElementBlocks(es, m, n - 1);
      BlocksStep(es, n);
      PlacesStep(es, m, n);
      LocatedAdd(es, ScannedBlocks(ObjectBlocks(es[..n - 1])), ElementPlaces(es, m, n - 1), m, n - 1);
    }
  }

  lemma MessageBlocks(msg: Message, m: nat)
    requires msg.role == "assistant"
    ensures var bs, ps := ScannedBlocks(Blocks(msg.content)), MessagePlaces(msg, m);
            if msg.content.Array? then Located(msg.content.elements, bs, ps) else bs == [] && ps == []
  {
    if msg.content.Array? {
      var es := msg.content.elements;
      ElementBlocks(es, m, |es|);
      assert es[..|es|] == es;
    }
  }

  /** The calls the scan reads are the calls of the conversation, in order. */
  lemma {:induction false} CallsAtPlaces(ms: seq<Message>)
    ensures |CallBlocks(ms)| == |Places(ms)|
    ensures forall i | 0 <= i < |Places(ms)| ::
              CallAt(ms, Places(ms)[i]) && CallBlocks(ms)[i] == BlockAt(ms, Places(ms)[i])
  {
    PlacesExact(ms);
    if ms != [] {
      var n := |ms| - 1;
      var before, last := Places(ms[..n]), MessagePlaces(ms[n], n);
      CallsAtPlaces(ms[..n]);
      PlacesExact(ms[..n]);
      MessageExact(ms[n], n);
      if ms[n].role == "assistant" { MessageBlocks(ms[n], n); }
      forall i | 0 <= i < |Places(ms)|
        ensures CallAt(ms, Places(ms)[i]) && CallBlocks(ms)[i] == BlockAt(ms, Places(ms)[i])
      {
        assert Places(ms)[i] in Places(ms);
        if i < |before| {
          assert before[i] in before;
        } else {
          assert last[i - |before|] in last;
        }
      }
    }
  }

  /** One more message that is no result of the call leaves the text as it was. */
  lemma TextKept(env: Environment, ms: seq<Message>, id: Id, text: string)
    requires ms != [] && !ResultAt(ms, |ms| - 1, id)
    ensures HasText(env, ms, id, text) <==> HasText(env, ms[..|ms| - 1], id, text)
  {
    var front := ms[..|ms| - 1];
    forall r: nat ensures LastResultAt(ms, r, id) <==> LastResultAt(front, r, id) { LastKept(ms, r, id); }
    if r: nat :| LastResultAt(front, r, id) && text == env.textOf(front[r]) { assert LastResultAt(ms, r, id); }
    if r: nat :| LastResultAt(ms, r, id) && text == env.textOf(ms[r]) { assert LastResultAt(front, r, id); }
  }

  lemma LastKept(ms: seq<Message>, r: nat, id: Id)
    requires ms != [] && !ResultAt(ms, |ms| - 1, id)
    ensures LastResultAt(ms, r, id) <==> LastResultAt(ms[..|ms| - 1], r, id)
  {
    var front := ms[..|ms| - 1];
    assert forall s: nat | s < |front| :: ResultAt(ms, s, id) <==> ResultAt(front, s, id);
    if LastResultAt(front, r, id) {
      forall s | r < s < |ms| ensures !ResultAt(ms, s, id) { assert s < |front| ==> !ResultAt(front, s, id); }
    }
    if LastResultAt(ms, r, id) {
      forall s | r < s < |front| ensures !ResultAt(front, s, id) { assert !ResultAt(ms, s, id); }
    }
  }

  /** The text the scan uses is that of the last result. */
  lemma {:induction false} ResultIs(env: Environment, ms: seq<Message>, id: Id, text: string)
    ensures HasText(env, ms, id, text) <==> ResultText(env, ms, id) == Some(text)
  {
    if ms != [] {
      var n := |ms| - 1;
      if ResultAt(ms, n, id) {
        assert LastResultAt(ms, n, id);
      } else {
        ResultIs(env, ms[..n], id, text);
        TextKept(env, ms, id, text);
      }
    }
  }

  // ----- the reads and edits of a path -----------------------------------

  /** The call is a read of the path that has a result. */
  predicate CallReads(env: Environment, ms: seq<Message>, b: Block, path: string) {
    Scanned(b) && b.name == "read" && env.pathOf(b) == Some(path) && ResultText(env, ms, b.id.value).Some?
  }

  predicate CallEdits(env: Environment, b: Block, path: string) {
    (b.name == "edit" || b.name == "write") && env.pathOf(b) == Some(path)
  }

  predicate ReadFound(env: Environment, ms: seq<Message>, calls: seq<Block>, path: string, read: ScanRead) {
    && 1 <= read.order <= |calls| && CallReads(env, ms, calls[read.order - 1], path)
    && calls[read.order - 1].id == Some(read.callId)
    && ResultText(env, ms, read.callId).Some? && read.contentHash == env.hash(ResultText(env, ms, read.callId).value)
  }

  ghost predicate HasOrder(rs: seq<ScanRead>, order: nat) { exists r :: 0 <= r < |rs| && rs[r].order == order }

  ghost predicate ReadsFound(env: Environment, ms: seq<Message>, calls: seq<Block>, path: string, rs: seq<ScanRead>) {
    && Increasing(rs)
    && (forall r | 0 <= r < |rs| :: ReadFound(env, ms, calls, path, rs[r]))
    && (forall i | 0 <= i < |calls| && CallReads(env, ms, calls[i], path) :: HasOrder(rs, i + 1))
  }

  lemma ReadAtIs(env: Environment, ms: seq<Message>, calls: seq<Block>, path: string)
    requires calls != [] && Scanned(calls[|calls| - 1])
    ensures var read := ReadAt(env, ms, calls[|calls| - 1], |calls|, path);
            && (read.Some? <==> CallReads(env, ms, calls[|calls| - 1], path))
            && (read.Some? ==> read.value.order == |calls| && ReadFound(env, ms, calls, path, read.value))
  {}

  /** Reads found among the first calls are found among all of them. */
  lemma FoundKept(env: Environment, ms: seq<Message>, calls: seq<Block>, path: string, front: seq<ScanRead>)
    requires calls != [] && ReadsFound(env, ms, calls[..|calls| - 1], path, front)
    ensures forall r | 0 <= r < |front| :: ReadFound(env, ms, calls, path, front[r]) && front[r].order < |calls|
  {
    forall r | 0 <= r < |front| ensures ReadFound(env, ms, calls, path, front[r]) && front[r].order < |calls| {
      assert ReadFound(env, ms, calls[..|calls| - 1], path, front[r]);
    }
  }

  lemma OrderKept(front: seq<ScanRead>, more: seq<ScanRead>, order: nat)
    requires HasOrder(front, order)
    ensures HasOrder(front + more, order)
  {
    var r :| 0 <= r < |front| && front[r].order == order;
    assert (front + more)[r].order == order;
  }

  lemma FoundStep(env: Environment, ms: seq<Message>, calls: seq<Block>, path: string, front: seq<ScanRead>,
      read: ScanRead)
    requires calls != [] && ReadsFound(env, ms, calls[..|calls| - 1], path, front)
    requires read.order == |calls| && ReadFound(env, ms, calls, path, read)
    ensures ReadsFound(env, ms, calls, path, front + [read])
  {
    FoundKept(env, ms, calls, path, front);
    forall i | 0 <= i < |calls| && CallReads(env, ms, calls[i], path) ensures HasOrder(front + [read], i + 1) {
      if i < |calls| - 1 {
        assert calls[..|calls| - 1][i] == calls[i];
        OrderKept(front, [read], i + 1);
      } else {
        assert (front + [read])[|front|].order == i + 1;
      }
    }
  }

  lemma NotFoundStep(env: Environment, ms: seq<Message>, calls: seq<Block>, path: string, front: seq<ScanRead>)
    requires calls != [] && ReadsFound(env, ms, calls[..|calls| - 1], path, front)
    requires !CallReads(env, ms, calls[|calls| - 1], path)
    ensures ReadsFound(env, ms, calls, path, front)
  {
    FoundKept(env, ms, calls, path, front);
    forall i | 0 <= i < |calls| && CallReads(env, ms, calls[i], path) ensures HasOrder(front, i + 1) {
      assert calls[..|calls| - 1][i] == calls[i];
    }
  }

  /** The reads of a path are exactly its read calls with a result, in call order. */
  lemma {:induction false} ReadsExact(env: Environment, ms: seq<Message>, calls: seq<Block>, path: string)
    requires forall b | b in calls :: Scanned(b)
    ensures ReadsFound(env, ms, calls, path, ReadsOf(env, ms, calls, path))
  {
    if calls != [] {
      var n := |calls| - 1;
      PrefixScanned(calls, n);
      ReadsExact(env, ms, calls[..n], path);
      ReadAtIs(env, ms, calls, path);
      var front, read := ReadsOf(env, ms, calls[..n], path), ReadAt(env, ms, calls[n], n + 1, path);
      if read.Some? {
        FoundStep(env, ms, calls, path, front, read.value);
      } else {
        NotFoundStep(env, ms, calls, path, front);
        assert front + [] == front;
      }
    }
  }

  lemma {:induction false} EditsExact(env: Environment, calls: seq<Block>, path: string)
    ensures forall e :: e in EditsOf(env, calls, path) <==> 1 <= e <= |calls| && CallEdits(env, calls[e - 1], path)
  {
    if calls != [] { EditsExact(env, calls[..|calls| - 1], path); }
  }

  // ----- one path, on places ---------------------------------------------

  lemma PlaceOrder(ps: seq<Place>, a: nat, b: nat)
    requires InOrder(ps) && a < |ps| && b < |ps|
    ensures Before(ps[a], ps[b]) <==> a < b
  {
    if b < a { assert Before(ps[b], ps[a]); }
  }

  ghost predicate ReadStands(env: Environment, ms: seq<Message>, path: string, ps: seq<Place>, read: ScanRead) {
    && 1 <= read.order <= |ps| && ReadOf(env, ms, path, ps[read.order - 1], read.contentHash)
    && read.callId == IdAt(ms, ps[read.order - 1])
  }

  /** The place is that of one of the reads. */
  ghost predicate StandsAt(rs: seq<ScanRead>, ps: seq<Place>, p: Place, h: string) {
    exists r :: 0 <= r < |rs| && 1 <= rs[r].order <= |ps| && ps[rs[r].order - 1] == p && rs[r].contentHash == h
  }

  /** Reads and edits stand where the path is read and edited. */
  ghost predicate Scene(env: Environment, ms: seq<Message>, path: string, ps: seq<Place>, rs: seq<ScanRead>,
      edits: set<nat>)
  {
    && InOrder(ps) && (forall p :: p in ps <==> CallAt(ms, p)) && Increasing(rs)
    && (forall r | 0 <= r < |rs| :: ReadStands(env, ms, path, ps, rs[r]))
    && (forall p, h | ReadOf(env, ms, path, p, h) :: StandsAt(rs, ps, p, h))
    && (forall e :: e in edits <==> 1 <= e <= |ps| && EditOf(env, ms, path, ps[e - 1]))
  }

  lemma ReadHere(env: Environment, ms: seq<Message>, path: string, p: Place, h: string)
    requires CallAt(ms, p)
    ensures ReadOf(env, ms, path, p, h) <==>
            CallReads(env, ms, BlockAt(ms, p), path) && ResultText(env, ms, IdAt(ms, p)).Some?
            && h == env.hash(ResultText(env, ms, IdAt(ms, p)).value)
  {
    if ReadOf(env, ms, path, p, h) {
      var text :| HasText(env, ms, IdAt(ms, p), text) && h == env.hash(text);
      ResultIs(env, ms, IdAt(ms, p), text);
    }
    if CallReads(env, ms, BlockAt(ms, p), path) {
      ResultIs(env, ms, IdAt(ms, p), ResultText(env, ms, IdAt(ms, p)).value);
    }
  }

  lemma ReadStandsHere(env: Environment, ms: seq<Message>, path: string, read: ScanRead)
    requires ReadFound(env, ms, CallBlocks(ms), path, read)
    ensures ReadStands(env, ms, path, Places(ms), read)
  {
    CallsAtPlaces(ms);
    ReadHere(env, ms, path, Places(ms)[read.order - 1], read.contentHash);
  }

  lemma FoundIndex(env: Environment, ms: seq<Message>, calls: seq<Block>, ps: seq<Place>, path: string,
      rs: seq<ScanRead>, i: nat, h: string)
    requires |calls| == |ps| && i < |ps| && ReadsFound(env, ms, calls, path, rs) && CallReads(env, ms, calls[i], path)
    requires h == env.hash(ResultText(env, ms, calls[i].id.value).value)
    ensures StandsAt(rs, ps, ps[i], h)
  {
    assert HasOrder(rs, i + 1);
    var r :| 0 <= r < |rs| && rs[r].order == i + 1;
    assert ReadFound(env, ms, calls, path, rs[r]);
  }

  lemma FoundHere(env: Environment, ms: seq<Message>, path: string, rs: seq<ScanRead>, p: Place, h: string)
    requires ReadsFound(env, ms, CallBlocks(ms), path, rs) && ReadOf(env, ms, path, p, h)
    ensures StandsAt(rs, Places(ms), p, h)
  {
    PlacesExact(ms);
    CallsAtPlaces(ms);
    var i :| 0 <= i < |Places(ms)| && Places(ms)[i] == p;
    ReadHere(env, ms, path, p, h);
    FoundIndex(env, ms, CallBlocks(ms), Places(ms), path, rs, i, h);
  }

  lemma EditAtPlace(env: Environment, ms: seq<Message>, calls: seq<Block>, ps: seq<Place>, path: string, e: int)
    requires |calls| == |ps|
    requires forall i | 0 <= i < |ps| :: CallAt(ms, ps[i]) && calls[i] == BlockAt(ms, ps[i])
    ensures (1 <= e <= |calls| && CallEdits(env, calls[e - 1], path)) <==>
            (1 <= e <= |ps| && EditOf(env, ms, path, ps[e - 1]))
  {}

  /** The reads found for a path stand in the scene. */
  lemma ReadsHere(env: Environment, ms: seq<Message>, path: string, rs: seq<ScanRead>)
    requires ReadsFound(env, ms, CallBlocks(ms), path, rs)
    ensures Increasing(rs) && forall r | 0 <= r < |rs| :: ReadStands(env, ms, path, Places(ms), rs[r])
    ensures forall p, h | ReadOf(env, ms, path, p, h) :: StandsAt(rs, Places(ms), p, h)
  {
    forall r | 0 <= r < |rs| ensures ReadStands(env, ms, path, Places(ms), rs[r]) {
      ReadStandsHere(env, ms, path, rs[r]);
    }
    forall p, h | ReadOf(env, ms, path, p, h) ensures StandsAt(rs, Places(ms), p, h) {
      FoundHere(env, ms, path, rs, p, h);
    }
  }

  lemma EditsAtPlaces(env: Environment, ms: seq<Message>, calls: seq<Block>, ps: seq<Place>, path: string,
      edits: set<nat>)
    requires |calls| == |ps|
    requires forall i | 0 <= i < |ps| :: CallAt(ms, ps[i]) && calls[i] == BlockAt(ms, ps[i])
    requires forall e :: e in edits <==> 1 <= e <= |calls| && CallEdits(env, calls[e - 1], path)
    ensures forall e :: e in edits <==> 1 <= e <= |ps| && EditOf(env, ms, path, ps[e - 1])
  {
    forall e ensures e in edits <==> 1 <= e <= |ps| && EditOf(env, ms, path, ps[e - 1]) {
      EditAtPlace(env, ms, calls, ps, path, e);
    }
  }

  lemma AllEditsHere(env: Environment, ms: seq<Message>, path: string)
    ensures forall e :: e in EditsOf(env, CallBlocks(ms), path) <==>
                        1 <= e <= |Places(ms)| && EditOf(env, ms, path, Places(ms)[e - 1])
  {
    CallsAtPlaces(ms);
    EditsExact(env, CallBlocks(ms), path);
    EditsAtPlaces(env, ms, CallBlocks(ms), Places(ms), path, EditsOf(env, CallBlocks(ms), path));
  }

  lemma SceneOf(env: Environment, ms: seq<Message>, path: string, ps: seq<Place>, rs: seq<ScanRead>, edits: set<nat>)
    requires InOrder(ps) && (forall p :: p in ps <==> CallAt(ms, p)) && Increasing(rs)
    requires forall r | 0 <= r < |rs| :: ReadStands(env, ms, path, ps, rs[r])
    requires forall p, h | ReadOf(env, ms, path, p, h) :: StandsAt(rs, ps, p, h)
    requires forall e :: e in edits <==> 1 <= e <= |ps| && EditOf(env, ms, path, ps[e - 1])
    ensures Scene(env, ms, path, ps, rs, edits)
  {}

  lemma ScenePath(env: Environment, ms: seq<Message>, path: string)
    ensures Scene(env, ms, path, Places(ms), ReadsOf(env, ms, CallBlocks(ms), path), EditsOf(env, CallBlocks(ms), path))
  {
    var rs, edits := ReadsOf(env, ms, CallBlocks(ms), path), EditsOf(env, CallBlocks(ms), path);
    PlacesExact(ms);
    ReadsExact(env, ms, CallBlocks(ms), path);
    ReadsHere(env, ms, path, rs);
    AllEditsHere(env, ms, path);
    SceneOf(env, ms, path, Places(ms), rs, edits);
  }

  // ----- duplicates and anchor -------------------------------------------

  lemma EditBetweenIs(env: Environment, ms: seq<Message>, path: string, ps: seq<Place>, rs: seq<ScanRead>,
      edits: set<nat>, a: nat, b: nat)
    requires Scene(env, ms, path, ps, rs, edits) && 1 <= a <= |ps| && 1 <= b <= |ps|
    ensures EditBetween(edits, a, b) <==>
            exists e :: Before(ps[a - 1], e) && Before(e, ps[b - 1]) && EditOf(env, ms, path, e)
  {
    if EditBetween(edits, a, b) {
      var x :| x in edits && a < x < b;
      PlaceOrder(ps, a - 1, x - 1);
      PlaceOrder(ps, x - 1, b - 1);
      assert EditOf(env, ms, path, ps[x - 1]);
    }
    if e :| Before(ps[a - 1], e) && Before(e, ps[b - 1]) && EditOf(env, ms, path, e) {
      assert e in ps;
      var x :| 0 <= x < |ps| && ps[x] == e;
      PlaceOrder(ps, a - 1, x);
      PlaceOrder(ps, x, b - 1);
      assert x + 1 in edits;
    }
  }

  lemma OneHash(env: Environment, ms: seq<Message>, path: string, p: Place, h: string, k: string)
    requires ReadOf(env, ms, path, p, h) && ReadOf(env, ms, path, p, k)
    ensures h == k
  {
    ReadHere(env, ms, path, p, h);
    ReadHere(env, ms, path, p, k);
  }

  /** A later read duplicates an earlier one exactly when its place repeats the other's. */
  lemma DuplicatesIs(env: Environment, ms: seq<Message>, path: string, ps: seq<Place>, rs: seq<ScanRead>,
      edits: set<nat>, i: nat, j: nat)
    requires Scene(env, ms, path, ps, rs, edits) && i < j < |rs|
    ensures 1 <= rs[i].order <= |ps| && 1 <= rs[j].order <= |ps|
    ensures Duplicates(rs, edits, i, j) <==> Repeats(env, ms, path, ps[rs[i].order - 1], ps[rs[j].order - 1])
  {
    assert ReadStands(env, ms, path, ps, rs[i]) && ReadStands(env, ms, path, ps, rs[j]);
    var p, q := ps[rs[i].order - 1], ps[rs[j].order - 1];
    EditBetweenIs(env, ms, path, ps, rs, edits, rs[i].order, rs[j].order);
    PlaceOrder(ps, rs[i].order - 1, rs[j].order - 1);
    if Repeats(env, ms, path, p, q) {
      var h :| ReadOf(env, ms, path, p, h) && ReadOf(env, ms, path, q, h);
      OneHash(env, ms, path, p, h, rs[i].contentHash);
      OneHash(env, ms, path, q, h, rs[j].contentHash);
    }
  }

  lemma ReadIndex(env: Environment, ms: seq<Message>, path: string, ps: seq<Place>, rs: seq<ScanRead>,
      edits: set<nat>, p: Place, h: string)
    returns (i: nat)
    requires Scene(env, ms, path, ps, rs, edits) && ReadOf(env, ms, path, p, h)
    ensures i < |rs| && 1 <= rs[i].order <= |ps| && ps[rs[i].order - 1] == p && rs[i].contentHash == h
  {
    assert StandsAt(rs, ps, p, h);
    i :| 0 <= i < |rs| && 1 <= rs[i].order <= |ps| && ps[rs[i].order - 1] == p && rs[i].contentHash == h;
  }

  lemma OrderIndex(rs: seq<ScanRead>, i: nat, j: nat)
    requires Increasing(rs) && i < |rs| && j < |rs|
    ensures rs[i].order < rs[j].order <==> i < j
  {
    if j < i { assert rs[j].order < rs[i].order; }
  }

  /** Places that repeat are those of two reads. */
  lemma RepeatsReads(env: Environment, ms: seq<Message>, path: string, ps: seq<Place>, rs: seq<ScanRead>,
      edits: set<nat>, p: Place, q: Place)
    returns (i: nat, j: nat)
    requires Scene(env, ms, path, ps, rs, edits) && Repeats(env, ms, path, p, q)
    ensures i < j < |rs| && 1 <= rs[i].order <= |ps| && 1 <= rs[j].order <= |ps|
    ensures ps[rs[i].order - 1] == p && ps[rs[j].order - 1] == q && Duplicates(rs, edits, i, j)
  {
    var h :| ReadOf(env, ms, path, p, h) && ReadOf(env, ms, path, q, h);
    i := ReadIndex(env, ms, path, ps, rs, edits, p, h);
    j := ReadIndex(env, ms, path, ps, rs, edits, q, h);
    PlaceOrder(ps, rs[i].order - 1, rs[j].order - 1);
    OrderIndex(rs, i, j);
    DuplicatesIs(env, ms, path, ps, rs, edits, i, j);
  }

  lemma {:induction false} FirstLaterIs(rs: seq<ScanRead>, edits: set<nat>, i: nat, j: nat, k: nat)
    requires i < j <= k < |rs| && Duplicates(rs, edits, i, k)
    ensures FirstLater(rs, edits, i, j) <= k
    decreases k - j
  {
    if j < k && !Duplicates(rs, edits, i, j) { FirstLaterIs(rs, edits, i, j + 1, k); }
  }

  /** Two reads with a duplicate between them: the middle one is repeated too. */
  lemma {:induction false} AnchorReaches(rs: seq<ScanRead>, edits: set<nat>, i: nat, k: nat)
    requires Increasing(rs) && i < k < |rs| && Duplicates(rs, edits, i, k)
    ensures Anchor(rs, edits, |rs|).Some? && rs[k].order <= rs[Anchor(rs, edits, |rs|).value].order
    decreases k - i
  {
    FirstLaterIs(rs, edits, i, i + 1, k);
    AnchorNewest(rs, edits, |rs|, i);
    var m := FirstLater(rs, edits, i, i + 1);
    if m < k {
      assert rs[i].order < rs[m].order;
      AnchorReaches(rs, edits, m, k);
    }
  }

  /** The anchor duplicates an earlier read. */
  lemma {:induction false} AnchorRepeats(rs: seq<ScanRead>, edits: set<nat>, n: nat) returns (i: nat)
    requires n <= |rs| && Anchor(rs, edits, n).Some?
    ensures i < n && i < Anchor(rs, edits, n).value && Duplicates(rs, edits, i, Anchor(rs, edits, n).value)
  {
    var later := FirstLater(rs, edits, n - 1, n);
    if Anchor(rs, edits, n) == Some(later) && later < |rs| {
      i := n - 1;
    } else {
      i := AnchorRepeats(rs, edits, n - 1);
    }
  }

  /** The reads that are listed as duplicates, by index. */
  function OlderIndices(rs: seq<ScanRead>, edits: set<nat>, n: nat): (r: seq<nat>)
    requires n <= |rs|
    ensures forall k | 0 <= k < |r| :: r[k] < n
  {
    if n == 0 then []
    else OlderIndices(rs, edits, n - 1) + (if HasLater(rs, edits, n - 1) then [n - 1] else [])
  }

  ghost predicate Rising(r: seq<nat>) { forall a, b | 0 <= a < b < |r| :: r[a] < r[b] }

  lemma RisingAppend(r: seq<nat>, n: nat)
    requires Rising(r) && forall k | 0 <= k < |r| :: r[k] < n
    ensures Rising(r + [n])
  {}

  lemma {:induction false} OlderIndicesExact(rs: seq<ScanRead>, edits: set<nat>, n: nat)
    requires n <= |rs|
    ensures Rising(OlderIndices(rs, edits, n))
    ensures forall i: nat :: i in OlderIndices(rs, edits, n) <==> i < n && HasLater(rs, edits, i)
  {
    if n > 0 {
      OlderIndicesExact(rs, edits, n - 1);
      RisingAppend(OlderIndices(rs, edits, n - 1), n - 1);
    }
  }

  lemma {:induction false} OlderIds(rs: seq<ScanRead>, edits: set<nat>, n: nat)
    requires n <= |rs|
    ensures |OlderIndices(rs, edits, n)| == |Older(rs, edits, n)|
    ensures forall k | 0 <= k < |OlderIndices(rs, edits, n)| ::
              Older(rs, edits, n)[k] == rs[OlderIndices(rs, edits, n)[k]].callId
  {
    if n > 0 { OlderIds(rs, edits, n - 1); }
  }

  type Relation = iset<(Place, Place)>

  /** The places of the reads, and how they repeat each other. */
  ghost predicate Drawn(rel: Relation, at: seq<Place>, rs: seq<ScanRead>, edits: set<nat>) {
    && |at| == |rs| && InOrder(at) && Increasing(rs)
    && (forall i, j | 0 <= i < j < |rs| :: Duplicates(rs, edits, i, j) <==> (at[i], at[j]) in rel)
    && (forall p, q | (p, q) in rel :: RelatedAt(at, p, q))
  }

  ghost predicate RelatedAt(at: seq<Place>, p: Place, q: Place) {
    exists i, j :: 0 <= i < j < |at| && at[i] == p && at[j] == q
  }

  lemma OnePlace(at: seq<Place>, i: nat, j: nat)
    requires InOrder(at) && i < |at| && j < |at| && at[i] == at[j]
    ensures i == j
  {
    PlaceOrder(at, i, j);
    PlaceOrder(at, j, i);
  }

  ghost predicate Repeated(rel: Relation, p: Place) { exists q :: (p, q) in rel }

  lemma HasLaterIs(rel: Relation, at: seq<Place>, rs: seq<ScanRead>, edits: set<nat>, i: nat)
    requires Drawn(rel, at, rs, edits) && i < |rs|
    ensures HasLater(rs, edits, i) <==> Repeated(rel, at[i])
  {
    var later := FirstLater(rs, edits, i, i + 1);
    if later < |rs| {
      assert (at[i], at[later]) in rel;
    } else if Repeated(rel, at[i]) {
      var q :| (at[i], q) in rel;
      assert RelatedAt(at, at[i], q);
      var i', j :| 0 <= i' < j < |at| && at[i'] == at[i] && at[j] == q;
      OnePlace(at, i, i');
      FirstLaterIs(rs, edits, i, i + 1, j);
    }
  }

  /** The places of the listed reads. */
  function PlacesAt(at: seq<Place>, ix: seq<nat>): (r: seq<Place>)
    requires forall k | 0 <= k < |ix| :: ix[k] < |at|
    ensures |r| == |ix| && forall k | 0 <= k < |ix| :: r[k] == at[ix[k]]
  {
    if ix == [] then [] else PlacesAt(at, ix[..|ix| - 1]) + [at[ix[|ix| - 1]]]
  }

  lemma PlacesInOrder(at: seq<Place>, ix: seq<nat>)
    requires InOrder(at) && Rising(ix) && forall k | 0 <= k < |ix| :: ix[k] < |at|
    ensures InOrder(PlacesAt(at, ix))
  {}

  lemma RepeatedIndex(rel: Relation, at: seq<Place>, rs: seq<ScanRead>, edits: set<nat>, p: Place) returns (i: nat)
    requires Drawn(rel, at, rs, edits) && Repeated(rel, p)
    ensures i < |rs| && at[i] == p && HasLater(rs, edits, i)
  {
    var q :| (p, q) in rel;
    assert RelatedAt(at, p, q);
    var j;
    i, j :| i < j < |at| && at[i] == p && at[j] == q;
    HasLaterIs(rel, at, rs, edits, i);
  }

  lemma RepeatedPlaces(rel: Relation, at: seq<Place>, rs: seq<ScanRead>, edits: set<nat>, ix: seq<nat>, p: Place)
    requires Drawn(rel, at, rs, edits) && forall k | 0 <= k < |ix| :: ix[k] < |at|
    requires forall i: nat :: i in ix <==> i < |rs| && HasLater(rs, edits, i)
    ensures p in PlacesAt(at, ix) <==> Repeated(rel, p)
  {
    var older := PlacesAt(at, ix);
    if Repeated(rel, p) {
      var i := RepeatedIndex(rel, at, rs, edits, p);
      var k :| 0 <= k < |ix| && ix[k] == i;
      assert older[k] == p;
    } else if p in older {
      var k :| 0 <= k < |older| && older[k] == p;
      assert ix[k] in ix;
      HasLaterIs(rel, at, rs, edits, ix[k]);
    }
  }

  /** The listed duplicates are at the repeated places, in order. */
  lemma OlderPlaces(rel: Relation, at: seq<Place>, rs: seq<ScanRead>, edits: set<nat>)
    returns (ix: seq<nat>, older: seq<Place>)
    requires Drawn(rel, at, rs, edits)
    ensures InOrder(older) && forall p :: p in older <==> Repeated(rel, p)
    ensures |ix| == |older| == |Older(rs, edits, |rs|)|
    ensures forall k | 0 <= k < |ix| ::
              ix[k] < |rs| && older[k] == at[ix[k]] && Older(rs, edits, |rs|)[k] == rs[ix[k]].callId
  {
    ix := OlderIndices(rs, edits, |rs|);
    OlderIndicesExact(rs, edits, |rs|);
    OlderIds(rs, edits, |rs|);
    older := PlacesAt(at, ix);
    PlacesInOrder(at, ix);
    forall p ensures p in older <==> Repeated(rel, p) { RepeatedPlaces(rel, at, rs, edits, ix, p); }
  }

  lemma AnchorPlace(rel: Relation, at: seq<Place>, rs: seq<ScanRead>, edits: set<nat>, a: nat)
    requires Drawn(rel, at, rs, edits) && Anchor(rs, edits, |rs|) == Some(a)
    ensures a < |rs| && (exists p :: (p, at[a]) in rel)
    ensures forall p, q | (p, q) in rel :: q == at[a] || Before(q, at[a])
  {
    var i := AnchorRepeats(rs, edits, |rs|);
    assert (at[i], at[a]) in rel;
    forall p, q | (p, q) in rel ensures q == at[a] || Before(q, at[a]) { NotNewer(rel, at, rs, edits, a, p, q); }
  }

  lemma NotNewer(rel: Relation, at: seq<Place>, rs: seq<ScanRead>, edits: set<nat>, a: nat, p: Place, q: Place)
    requires Drawn(rel, at, rs, edits) && Anchor(rs, edits, |rs|) == Some(a) && a < |rs| && (p, q) in rel
    ensures q == at[a] || Before(q, at[a])
  {
    assert RelatedAt(at, p, q);
    var i, j :| 0 <= i < j < |at| && at[i] == p && at[j] == q;
    AnchorReaches(rs, edits, i, j);
    OrderIndex(rs, a, j);
  }

  lemma AnchorExists(rel: Relation, at: seq<Place>, rs: seq<ScanRead>, edits: set<nat>)
    requires Drawn(rel, at, rs, edits)
    ensures Anchor(rs, edits, |rs|).Some? <==> exists p :: Repeated(rel, p)
  {
    if Anchor(rs, edits, |rs|).Some? {
      var i := AnchorRepeats(rs, edits, |rs|);
      assert (at[i], at[Anchor(rs, edits, |rs|).value]) in rel;
      assert Repeated(rel, at[i]);
    }
    if p :| Repeated(rel, p) {
      var q :| (p, q) in rel;
      assert RelatedAt(at, p, q);
      var i, j :| 0 <= i < j < |at| && at[i] == p && at[j] == q;
      AnchorReaches(rs, edits, i, j);
    }
  }

  // ----- the whole scan --------------------------------------------------

  ghost function RepeatsOf(env: Environment, ms: seq<Message>, path: string): (rel: Relation) {
    iset p, q | Repeats(env, ms, path, p, q) :: (p, q)
  }

  /** Where the reads of a path stand. */
  function Standing(ps: seq<Place>, rs: seq<ScanRead>): (at: seq<Place>)
    requires forall r | 0 <= r < |rs| :: 1 <= rs[r].order <= |ps|
    ensures |at| == |rs| && forall r | 0 <= r < |rs| :: at[r] == ps[rs[r].order - 1]
  {
    if rs == [] then [] else Standing(ps, rs[..|rs| - 1]) + [ps[rs[|rs| - 1].order - 1]]
  }

  lemma StandingOrders(env: Environment, ms: seq<Message>, path: string, ps: seq<Place>, rs: seq<ScanRead>,
      edits: set<nat>)
    requires Scene(env, ms, path, ps, rs, edits)
    ensures forall r | 0 <= r < |rs| :: 1 <= rs[r].order <= |ps| && ReadStands(env, ms, path, ps, rs[r])
  {}

  lemma StandingInOrder(ps: seq<Place>, rs: seq<ScanRead>)
    requires InOrder(ps) && Increasing(rs) && forall r | 0 <= r < |rs| :: 1 <= rs[r].order <= |ps|
    ensures InOrder(Standing(ps, rs))
  {
    forall a, b | 0 <= a < b < |rs| ensures Before(Standing(ps, rs)[a], Standing(ps, rs)[b]) {
      PlaceOrder(ps, rs[a].order - 1, rs[b].order - 1);
    }
  }

  lemma SceneDrawn(env: Environment, ms: seq<Message>, path: string, ps: seq<Place>, rs: seq<ScanRead>,
      edits: set<nat>)
    requires Scene(env, ms, path, ps, rs, edits)
    ensures forall r | 0 <= r < |rs| :: 1 <= rs[r].order <= |ps| && ReadStands(env, ms, path, ps, rs[r])
    ensures Drawn(RepeatsOf(env, ms, path), Standing(ps, rs), rs, edits)
  {
    StandingOrders(env, ms, path, ps, rs, edits);
    StandingInOrder(ps, rs);
    var rel, at := RepeatsOf(env, ms, path), Standing(ps, rs);
    forall i, j | 0 <= i < j < |rs| ensures Duplicates(rs, edits, i, j) <==> (at[i], at[j]) in rel {
      DuplicatesIs(env, ms, path, ps, rs, edits, i, j);
    }
    forall p, q | (p, q) in rel ensures RelatedAt(at, p, q) {
      var i, j := RepeatsReads(env, ms, path, ps, rs, edits, p, q);
      assert at[i] == p && at[j] == q;
    }
  }

  /** The places are the duplicated reads of the path, in order, and these are their ids. */
  ghost predicate Lists(env: Environment, ms: seq<Message>, path: string, older: seq<Place>, ids: seq<Id>) {
    && InOrder(older) && (forall p :: p in older <==> Duplicated(env, ms, path, p))
    && |ids| == |older| && forall k | 0 <= k < |older| :: CallAt(ms, older[k]) && ids[k] == IdAt(ms, older[k])
  }

  /** The anchor repeats a read of the path, and nothing newer does. */
  ghost predicate Newest(env: Environment, ms: seq<Message>, path: string, anchor: Place) {
    && (exists p :: Repeats(env, ms, path, p, anchor))
    && (forall p, q | Repeats(env, ms, path, p, q) :: q == anchor || Before(q, anchor))
  }

  lemma RepeatedIs(env: Environment, ms: seq<Message>, path: string, p: Place)
    ensures Repeated(RepeatsOf(env, ms, path), p) <==> Duplicated(env, ms, path, p)
  {
    var rel := RepeatsOf(env, ms, path);
    if q :| (p, q) in rel { assert Repeats(env, ms, path, p, q); }
    if q :| Repeats(env, ms, path, p, q) { assert (p, q) in rel; }
  }

  lemma ListedOlder(env: Environment, ms: seq<Message>, path: string, at: seq<Place>, rs: seq<ScanRead>,
      edits: set<nat>)
    returns (older: seq<Place>)
    requires Drawn(RepeatsOf(env, ms, path), at, rs, edits)
    requires forall r | 0 <= r < |rs| :: CallAt(ms, at[r]) && rs[r].callId == IdAt(ms, at[r])
    ensures Lists(env, ms, path, older, Older(rs, edits, |rs|))
  {
    var rel := RepeatsOf(env, ms, path);
    var ix;
    ix, older := OlderPlaces(rel, at, rs, edits);
    forall p ensures Repeated(rel, p) <==> Duplicated(env, ms, path, p) { RepeatedIs(env, ms, path, p); }
  }

  lemma NewestIs(env: Environment, ms: seq<Message>, path: string, anchor: Place)
    requires exists p :: (p, anchor) in RepeatsOf(env, ms, path)
    requires forall p, q | (p, q) in RepeatsOf(env, ms, path) :: q == anchor || Before(q, anchor)
    ensures Newest(env, ms, path, anchor)
  {
    var p :| (p, anchor) in RepeatsOf(env, ms, path);
    assert Repeats(env, ms, path, p, anchor);
    forall p, q | Repeats(env, ms, path, p, q) ensures q == anchor || Before(q, anchor) {
      assert (p, q) in RepeatsOf(env, ms, path);
    }
  }

  lemma NewestAnchor(env: Environment, ms: seq<Message>, path: string, at: seq<Place>, rs: seq<ScanRead>,
      edits: set<nat>, a: nat)
    requires Drawn(RepeatsOf(env, ms, path), at, rs, edits) && Anchor(rs, edits, |rs|) == Some(a)
    ensures a < |rs| && Newest(env, ms, path, at[a])
  {
    AnchorPlace(RepeatsOf(env, ms, path), at, rs, edits, a);
    NewestIs(env, ms, path, at[a]);
  }

  lemma StandingCalls(env: Environment, ms: seq<Message>, path: string, ps: seq<Place>, rs: seq<ScanRead>)
    requires forall r | 0 <= r < |rs| :: 1 <= rs[r].order <= |ps| && ReadStands(env, ms, path, ps, rs[r])
    ensures forall r | 0 <= r < |rs| ::
              CallAt(ms, Standing(ps, rs)[r]) && rs[r].callId == IdAt(ms, Standing(ps, rs)[r])
  {
    forall r | 0 <= r < |rs|
      ensures CallAt(ms, Standing(ps, rs)[r]) && rs[r].callId == IdAt(ms, Standing(ps, rs)[r])
    {
      assert ReadStands(env, ms, path, ps, rs[r]);
    }
  }

  /**
   What an entry of the scan says: its duplicates are the calls that read its path,
   in order, which a later read of the path with an equal result hash repeats
   without an edit in between; its anchor is the newest such later read.
   */
  lemma EntryExact(env: Environment, ms: seq<Message>, e: Entry) returns (anchor: Place, older: seq<Place>)
    requires e in Scan(env, ms)
    ensures CallAt(ms, anchor) && IdAt(ms, anchor) == e.anchorCallId && Newest(env, ms, e.path, anchor)
    ensures Lists(env, ms, e.path, older, e.duplicates)
  {
    var calls, ps := CallBlocks(ms), Places(ms);
    EntryIs(env, ms, calls, PathsOf(env, ms, calls), e);
    var rs, edits := ReadsOf(env, ms, calls, e.path), EditsOf(env, calls, e.path);
    ScenePath(env, ms, e.path);
    SceneDrawn(env, ms, e.path, ps, rs, edits);
    StandingCalls(env, ms, e.path, ps, rs);
    var at, a := Standing(ps, rs), Anchor(rs, edits, |rs|).value;
    NewestAnchor(env, ms, e.path, at, rs, edits, a);
    anchor := at[a];
    older := ListedOlder(env, ms, e.path, at, rs, edits);
  }

  ghost predicate Listed(entries: seq<Entry>, path: string) { exists e | e in entries :: e.path == path }

  lemma ListedAppend(entries: seq<Entry>, e: Entry, path: string)
    ensures Listed(entries + [e], path) <==> Listed(entries, path) || e.path == path
  {
    assert forall x :: x in entries + [e] <==> x in entries || x == e;
  }

  /** A path has an entry exactly when it is scanned and its reads have an anchor. */
  lemma {:induction false} ListedIs(env: Environment, ms: seq<Message>, calls: seq<Block>, paths: seq<string>,
      path: string)
    requires forall b | b in calls :: Scanned(b)
    ensures Listed(EntriesOf(env, ms, calls, paths), path) <==>
            path in paths
            && PathEntry(path, ReadsOf(env, ms, calls, path), EditsOf(env, calls, path)).Some?
  {
    if paths != [] {
      var n := |paths| - 1;
      var front := EntriesOf(env, ms, calls, paths[..n]);
      ListedIs(env, ms, calls, paths[..n], path);
      var entry := PathEntry(paths[n], ReadsOf(env, ms, calls, paths[n]), EditsOf(env, calls, paths[n]));
      if entry.Some? { ListedAppend(front, entry.value, path); }
    }
  }

  /** The scanned paths are those that a call with a result reads. */
  lemma {:induction false} PathsExact(env: Environment, ms: seq<Message>, calls: seq<Block>, path: string)
    requires forall b | b in calls :: Scanned(b)
    ensures path in PathsOf(env, ms, calls) <==> ReadsOf(env, ms, calls, path) != []
  {
    if calls != [] {
      PrefixScanned(calls, |calls| - 1);
      PathsExact(env, ms, calls[..|calls| - 1], path);
    }
  }

  /** A path has an entry exactly when one of its reads is duplicated. */
  lemma PathListed(env: Environment, ms: seq<Message>, path: string)
    ensures Listed(Scan(env, ms), path) <==> exists p :: Duplicated(env, ms, path, p)
  {
    var calls, ps := CallBlocks(ms), Places(ms);
    var rs, edits := ReadsOf(env, ms, calls, path), EditsOf(env, calls, path);
    ListedIs(env, ms, calls, PathsOf(env, ms, calls), path);
    PathsExact(env, ms, calls, path);
    ScenePath(env, ms, path);
    SceneDrawn(env, ms, path, ps, rs, edits);
    AnchorExists(RepeatsOf(env, ms, path), Standing(ps, rs), rs, edits);
    forall p ensures Repeated(RepeatsOf(env, ms, path), p) <==> Duplicated(env, ms, path, p) {
      RepeatedIs(env, ms, path, p);
    }
  }

  // ----- the order of entries --------------------------------------------

  /** Some call reads `p` before every call that reads `q`. */
  ghost predicate ReadFirst(env: Environment, ms: seq<Message>, calls: seq<Block>, p: string, q: string) {
    exists i :: 0 <= i < |calls| && CallReads(env, ms, calls[i], p) && Preceding(env, ms, calls, i, q)
  }

  ghost predicate Preceding(env: Environment, ms: seq<Message>, calls: seq<Block>, i: int, q: string) {
    forall k | 0 <= k < |calls| && CallReads(env, ms, calls[k], q) :: i < k
  }

  lemma ReadFirstGrows(env: Environment, ms: seq<Message>, calls: seq<Block>, p: string, q: string)
    requires calls != [] && ReadFirst(env, ms, calls[..|calls| - 1], p, q)
    ensures ReadFirst(env, ms, calls, p, q)
  {
    var front := calls[..|calls| - 1];
    var i :| 0 <= i < |front| && CallReads(env, ms, front[i], p) && Preceding(env, ms, front, i, q);
    assert calls[i] == front[i];
    forall k | 0 <= k < |calls| && CallReads(env, ms, calls[k], q) ensures i < k {
      if k < |front| { assert front[k] == calls[k]; }
    }
  }

  lemma HasRead(env: Environment, ms: seq<Message>, calls: seq<Block>, p: string) returns (i: nat)
    requires (forall b | b in calls :: Scanned(b)) && p in PathsOf(env, ms, calls)
    ensures i < |calls| && CallReads(env, ms, calls[i], p)
  {
    PathsExact(env, ms, calls, p);
    ReadsExact(env, ms, calls, p);
    var read := ReadsOf(env, ms, calls, p)[0];
    assert ReadFound(env, ms, calls, p, read);
    i := read.order - 1;
  }

  lemma NoRead(env: Environment, ms: seq<Message>, calls: seq<Block>, p: string)
    requires (forall b | b in calls :: Scanned(b)) && p !in PathsOf(env, ms, calls)
    ensures forall i | 0 <= i < |calls| :: !CallReads(env, ms, calls[i], p)
  {
    PathsExact(env, ms, calls, p);
    ReadsExact(env, ms, calls, p);
    forall i | 0 <= i < |calls| ensures !CallReads(env, ms, calls[i], p) {
      assert !HasOrder([], i + 1);
    }
  }

  lemma NewPathLast(env: Environment, ms: seq<Message>, calls: seq<Block>, p: string, q: string)
    requires calls != [] && forall b | b in calls[..|calls| - 1] :: Scanned(b)
    requires p in PathsOf(env, ms, calls[..|calls| - 1]) && q !in PathsOf(env, ms, calls[..|calls| - 1])
    ensures ReadFirst(env, ms, calls, p, q)
  {
    var front := calls[..|calls| - 1];
    var i := HasRead(env, ms, front, p);
    NoRead(env, ms, front, q);
    assert forall k | 0 <= k < |front| :: front[k] == calls[k];
  }

  /** Scanned paths come in the order of their first reads. */
  lemma {:induction false} PathsOrdered(env: Environment, ms: seq<Message>, calls: seq<Block>, a: nat, b: nat)
    requires (forall x | x in calls :: Scanned(x)) && a < b < |PathsOf(env, ms, calls)|
    ensures ReadFirst(env, ms, calls, PathsOf(env, ms, calls)[a], PathsOf(env, ms, calls)[b])
  {
    var n := |calls| - 1;
    PrefixScanned(calls, n);
    var front := PathsOf(env, ms, calls[..n]);
    if b < |front| {
      PathsOrdered(env, ms, calls[..n], a, b);
      ReadFirstGrows(env, ms, calls, front[a], front[b]);
    } else {
      NewPathLast(env, ms, calls, front[a], PathsOf(env, ms, calls)[b]);
    }
  }

  lemma {:induction false} EntryPaths(env: Environment, ms: seq<Message>, calls: seq<Block>, paths: seq<string>, y: nat)
    returns (b: nat)
    requires (forall x | x in calls :: Scanned(x)) && y < |EntriesOf(env, ms, calls, paths)|
    ensures b < |paths| && paths[b] == EntriesOf(env, ms, calls, paths)[y].path
  {
    var n := |paths| - 1;
    if y < |EntriesOf(env, ms, calls, paths[..n])| {
      b := EntryPaths(env, ms, calls, paths[..n], y);
    } else {
      b := n;
    }
  }

  lemma {:induction false} EntryOrder(env: Environment, ms: seq<Message>, calls: seq<Block>, paths: seq<string>, x: nat,
      y: nat)
    returns (a: nat, b: nat)
    requires (forall x | x in calls :: Scanned(x)) && x < y < |EntriesOf(env, ms, calls, paths)|
    ensures a < b < |paths| && paths[a] == EntriesOf(env, ms, calls, paths)[x].path
    ensures paths[b] == EntriesOf(env, ms, calls, paths)[y].path
  {
    var n := |paths| - 1;
    if y < |EntriesOf(env, ms, calls, paths[..n])| {
      a, b := EntryOrder(env, ms, calls, paths[..n], x, y);
    } else {
      a := EntryPaths(env, ms, calls, paths[..n], x);
      b := n;
    }
  }

  /** Some place reads `path` before every place that reads `other`. */
  ghost predicate ReadEarlier(env: Environment, ms: seq<Message>, path: string, other: string) {
    exists p, h :: ReadOf(env, ms, path, p, h) && forall q, k | ReadOf(env, ms, other, q, k) :: Before(p, q)
  }

  lemma ReadFirstPlaces(env: Environment, ms: seq<Message>, path: string, other: string)
    requires ReadFirst(env, ms, CallBlocks(ms), path, other)
    ensures ReadEarlier(env, ms, path, other)
  {
    var calls, ps := CallBlocks(ms), Places(ms);
    PlacesExact(ms);
    CallsAtPlaces(ms);
    var i :| 0 <= i < |calls| && CallReads(env, ms, calls[i], path) && Preceding(env, ms, calls, i, other);
    var h := env.hash(ResultText(env, ms, IdAt(ms, ps[i])).value);
    ReadHere(env, ms, path, ps[i], h);
    forall q, k | ReadOf(env, ms, other, q, k) ensures Before(ps[i], q) {
      var j :| 0 <= j < |ps| && ps[j] == q;
      ReadHere(env, ms, other, q, k);
      PlaceOrder(ps, i, j);
    }
  }

  /** Entries come in the order of their paths' first reads, so each path has one. */
  lemma EntriesOrdered(env: Environment, ms: seq<Message>, x: nat, y: nat)
    requires x < y < |Scan(env, ms)|
    ensures ReadEarlier(env, ms, Scan(env, ms)[x].path, Scan(env, ms)[y].path)
    ensures Scan(env, ms)[x].path != Scan(env, ms)[y].path
  {
    var calls := CallBlocks(ms);
    var a, b := EntryOrder(env, ms, calls, PathsOf(env, ms, calls), x, y);
    PathsOrdered(env, ms, calls, a, b);
    ReadFirstPlaces(env, ms, Scan(env, ms)[x].path, Scan(env, ms)[y].path);
  }
}
