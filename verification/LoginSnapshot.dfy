/**
 LoginSnapshot::BuildFrames: a login reply that is too large for one packet is cut into frames,
 each a copy of the reply with a part of the application list and of the friend list.
 The printed size of a frame is a parameter: it is only assumed to grow with the frame.
 */
module LoginSnapshot {
  import opened Common

  const MAX_LENGTH: nat := 16384
  const MAX_CHUNKS: nat := 256
  const MAX_BYTES: nat := 4194304

  datatype List = ApplyList | FriendList

  /** An item together with the list of the reply it belongs to. */
  datatype Entry = Entry(list: List, item: string)

  datatype Frame = Frame(entries: seq<Entry>, more: bool, index: nat)

  datatype Snapshot = Failed | Single | Chunks(frames: seq<Frame>)

  // ------------------------------------------------------------ specification

  /** The frame of i'..j' at index k' is part of the frame of i..j at index k. */
  predicate Nested(all: seq<Entry>, i: nat, i': nat, j': nat, j: nat, k': nat, k: nat) {
    i <= i' <= j' <= j <= |all| && k' <= k
  }

  /** Dropping entries at either end, or lowering the index, never makes a frame longer; nor does `true`. */
  ghost predicate Monotone(size: Frame -> nat) {
    && (forall all: seq<Entry>, i: nat, i': nat, j': nat, j: nat, k': nat, k: nat
          {:trigger Nested(all, i, i', j', j, k', k)} ::
          Nested(all, i, i', j', j, k', k) ==>
            size(Frame(all[i'..j'], false, k')) <= size(Frame(all[i..j], false, k)))
    && (forall es: seq<Entry>, k: nat {:trigger size(Frame(es, true, k))} ::
          size(Frame(es, true, k)) <= size(Frame(es, false, k)))
  }

  predicate Fits(size: Frame -> nat, all: seq<Entry>, i: nat, j: nat, k: nat) {
    i <= j <= |all| && size(Frame(all[i..j], false, k)) <= MAX_LENGTH
  }

  predicate FrameFits(size: Frame -> nat, all: seq<Entry>, cuts: seq<nat>, k: nat) {
    k + 1 < |cuts| && Fits(size, all, cuts[k], cuts[k + 1], k)
  }

  /** `cuts` splits all entries, in order, into at most MAX_CHUNKS frames that fit. */
  ghost predicate ValidSplit(size: Frame -> nat, all: seq<Entry>, cuts: seq<nat>) {
    && 2 <= |cuts| <= MAX_CHUNKS + 1
    && cuts[0] == 0 && cuts[|cuts| - 1] == |all|
    && (forall k :: 0 <= k < |cuts| - 1 ==> FrameFits(size, all, cuts, k))
  }

  ghost predicate Splittable(size: Frame -> nat, all: seq<Entry>) {
    exists cuts :: ValidSplit(size, all, cuts)
  }

  predicate FrameFull(size: Frame -> nat, all: seq<Entry>, g: seq<nat>, k: nat) {
    k + 1 < |g| && g[k] < g[k + 1] < |all| && !Fits(size, all, g[k], g[k + 1] + 1, k)
  }

  /** Finished greedy frames: each fits, and none had room for one more entry. */
  ghost predicate Greedy(size: Frame -> nat, all: seq<Entry>, g: seq<nat>) {
    && |g| >= 1 && g[0] == 0
    && (forall k :: 0 <= k < |g| - 1 ==> FrameFits(size, all, g, k))
    && (forall k :: 0 <= k < |g| - 1 ==> FrameFull(size, all, g, k))
  }

  // -------------------------------------------------------------- optimality

  lemma FitsShrinks(size: Frame -> nat, all: seq<Entry>, i: nat, i': nat, j': nat, j: nat, k': nat, k: nat)
    requires Monotone(size) && Fits(size, all, i, j, k) && i <= i' <= j' <= j && k' <= k
    ensures Fits(size, all, i', j', k')
  {
    assert Nested(all, i, i', j', j, k', k);
  }

  lemma {:induction false} GreedyOrdered(size: Frame -> nat, all: seq<Entry>, g: seq<nat>, i: nat, j: nat)
    requires Greedy(size, all, g) && i <= j < |g|
    ensures g[i] <= g[j]
    decreases j
  {
    if i < j {
      GreedyOrdered(size, all, g, i, j - 1);
      assert FrameFull(size, all, g, j - 1);
    }
  }

  /** After k frames no valid split has consumed more entries than the greedy one. */
  lemma {:induction false} GreedyStaysAhead(size: Frame -> nat, all: seq<Entry>, g: seq<nat>, cuts: seq<nat>, k: nat)
    requires Monotone(size) && Greedy(size, all, g) && ValidSplit(size, all, cuts)
    requires k < |g| && k < |cuts|
    ensures cuts[k] <= g[k]
  {
    if k > 0 {
      var p := k - 1;
      GreedyStaysAhead(size, all, g, cuts, p);
      assert FrameFits(size, all, cuts, p) && FrameFull(size, all, g, p);
      if cuts[k] > g[k] {
        FitsShrinks(size, all, cuts[p], g[p], g[k] + 1, cuts[k], p, p);
      }
    }
  }

  /** While entries remain, every valid split needs more frames than the greedy one has finished. */
  lemma MoreFramesNeeded(size: Frame -> nat, all: seq<Entry>, g: seq<nat>, cuts: seq<nat>)
    requires Monotone(size) && Greedy(size, all, g) && ValidSplit(size, all, cuts)
    requires g[|g| - 1] < |all|
    ensures |g| - 1 < |cuts| - 1
  {
    if |cuts| <= |g| {
      GreedyOrdered(size, all, g, |cuts| - 1, |g| - 1);
      GreedyStaysAhead(size, all, g, cuts, |cuts| - 1);
    }
  }

  /** The frame of a split that holds entry p. */
  lemma FrameHolding(size: Frame -> nat, all: seq<Entry>, cuts: seq<nat>, p: nat, from: nat) returns (k: nat)
    requires ValidSplit(size, all, cuts) && from < |cuts| && cuts[from] <= p < |all|
    ensures from <= k < |cuts| - 1 && cuts[k] <= p < cuts[k + 1]
    decreases |cuts| - from
  {
    if p < cuts[from + 1] {
      k := from;
    } else {
      k := FrameHolding(size, all, cuts, p, from + 1);
    }
  }

  /** An entry that does not fit alone where greedy must start a frame with it fits in no valid split. */
  lemma NoSplitWithOversizedEntry(size: Frame -> nat, all: seq<Entry>, g: seq<nat>)
    requires Monotone(size) && Greedy(size, all, g)
    requires g[|g| - 1] < |all| && !Fits(size, all, g[|g| - 1], g[|g| - 1] + 1, |g| - 1)
    ensures !Splittable(size, all)
  {
    if cuts :| ValidSplit(size, all, cuts) {
      var m, p := |g| - 1, g[|g| - 1];
      MoreFramesNeeded(size, all, g, cuts);
      GreedyStaysAhead(size, all, g, cuts, m);
      var k := FrameHolding(size, all, cuts, p, m);
      assert FrameFits(size, all, cuts, k);
      FitsShrinks(size, all, cuts[k], p, p + 1, cuts[k + 1], m, k);
    }
  }

  lemma NoSplitAfterMaxChunks(size: Frame -> nat, all: seq<Entry>, g: seq<nat>)
    requires Monotone(size) && Greedy(size, all, g)
    requires g[|g| - 1] < |all| && |g| - 1 >= MAX_CHUNKS
    ensures !Splittable(size, all)
  {
    if cuts :| ValidSplit(size, all, cuts) {
      MoreFramesNeeded(size, all, g, cuts);
    }
  }

  lemma NoSplitWithOversizedBase(size: Frame -> nat, all: seq<Entry>)
    requires Monotone(size) && size(Frame([], false, 0)) > MAX_LENGTH
    ensures !Splittable(size, all)
  {
    if cuts :| ValidSplit(size, all, cuts) {
      assert FrameFits(size, all, cuts, 0);
      assert all[0..0] == [];
      FitsShrinks(size, all, cuts[0], 0, 0, cuts[1], 0, 0);
    }
  }

  lemma ExtendGreedy(size: Frame -> nat, all: seq<Entry>, g: seq<nat>, pos: nat)
    requires Greedy(size, all, g) && g[|g| - 1] < pos < |all|
    requires Fits(size, all, g[|g| - 1], pos, |g| - 1) && !Fits(size, all, g[|g| - 1], pos + 1, |g| - 1)
    ensures Greedy(size, all, g + [pos])
  {
    var g' := g + [pos];
    forall k | 0 <= k < |g'| - 1 ensures FrameFits(size, all, g', k) && FrameFull(size, all, g', k) {
      assert k < |g| - 1 ==> FrameFits(size, all, g, k) && FrameFull(size, all, g, k);
    }
  }

  lemma GreedyIsSplit(size: Frame -> nat, all: seq<Entry>, g: seq<nat>)
    requires Greedy(size, all, g) && |g| <= MAX_CHUNKS && Fits(size, all, g[|g| - 1], |all|, |g| - 1)
    ensures ValidSplit(size, all, g + [|all|])
  {
    var g' := g + [|all|];
    forall k | 0 <= k < |g'| - 1 ensures FrameFits(size, all, g', k) {
      assert k < |g| - 1 ==> FrameFits(size, all, g, k);
    }
  }

  // -------------------------------------------------------- what is produced

  function Tagged(list: List, items: seq<string>): (es: seq<Entry>)
    ensures |es| == |items| && forall i :: 0 <= i < |es| ==> es[i] == Entry(list, items[i])
  {
    seq(|items|, i requires 0 <= i < |items| => Entry(list, items[i]))
  }

  /** The reply's entries in the order in which the two lists are walked. */
  function All(apply: seq<string>, friends: seq<string>): seq<Entry> {
    Tagged(ApplyList, apply) + Tagged(FriendList, friends)
  }

  /** What a frame, or the whole reply, holds of one list. */
  function Part(es: seq<Entry>, list: List): seq<string> {
    if es == [] then []
    else Part(es[..|es| - 1], list) + (if es[|es| - 1].list == list then [es[|es| - 1].item] else [])
  }

  function Flatten(frames: seq<Frame>): seq<Entry> {
    if frames == [] then [] else Flatten(frames[..|frames| - 1]) + frames[|frames| - 1].entries
  }

  /** One list as a client puts it back together from the frames. */
  function Reassembled(frames: seq<Frame>, list: List): seq<string> {
    if frames == [] then []
    else Reassembled(frames[..|frames| - 1], list) + Part(frames[|frames| - 1].entries, list)
  }

  lemma {:induction false} PartConcat(a: seq<Entry>, b: seq<Entry>, list: List)
    ensures Part(a + b, list) == Part(a, list) + Part(b, list)
    decreases |b|
  {
    if b == [] {
      assert a + b == a;
    } else {
      PartConcat(a, b[..|b| - 1], list);
      assert (a + b)[..|a + b| - 1] == a + b[..|b| - 1];
    }
  }

  lemma {:induction false} PartTagged(list: List, items: seq<string>, wanted: List)
    ensures Part(Tagged(list, items), wanted) == if list == wanted then items else []
    decreases |items|
  {
    if items != [] {
      var n := |items| - 1;
      PartTagged(list, items[..n], wanted);
      assert Tagged(list, items)[..n] == Tagged(list, items[..n]);
    }
  }

  lemma {:induction false} ReassembledFlat(frames: seq<Frame>, list: List)
    ensures Reassembled(frames, list) == Part(Flatten(frames), list)
  {
    if frames != [] {
      var n := |frames| - 1;
      ReassembledFlat(frames[..n], list);
      PartConcat(Flatten(frames[..n]), frames[n].entries, list);
    }
  }

  /** Frames that flatten to the reply's entries give both lists back. */
  lemma BothListsRecovered(apply: seq<string>, friends: seq<string>, frames: seq<Frame>)
    requires Flatten(frames) == All(apply, friends)
    ensures Reassembled(frames, ApplyList) == apply && Reassembled(frames, FriendList) == friends
  {
    var a, f := Tagged(ApplyList, apply), Tagged(FriendList, friends);
    ReassembledFlat(frames, ApplyList);
    ReassembledFlat(frames, FriendList);
    PartConcat(a, f, ApplyList);
    PartConcat(a, f, FriendList);
    PartTagged(ApplyList, apply, ApplyList);
    PartTagged(FriendList, friends, ApplyList);
    PartTagged(ApplyList, apply, FriendList);
    PartTagged(FriendList, friends, FriendList);
  }

  /** What a chunked snapshot promises its receiver. */
  ghost predicate Faithful(size: Frame -> nat, apply: seq<string>, friends: seq<string>, frames: seq<Frame>) {
    && 1 <= |frames| <= MAX_CHUNKS
    && Reassembled(frames, ApplyList) == apply && Reassembled(frames, FriendList) == friends
    && (forall k :: 0 <= k < |frames| ==>
          frames[k].index == k && size(frames[k]) <= MAX_LENGTH && (frames[k].more <==> k + 1 < |frames|))
  }

  ghost predicate FewestFrames(size: Frame -> nat, all: seq<Entry>, count: nat) {
    forall cuts :: ValidSplit(size, all, cuts) ==> count <= |cuts| - 1
  }

  // ------------------------------------------- the styled printer is monotone

  /**
   Layout of the styled JSON printer: fixed fields, the extra bytes of a non-empty list (net of
   one separator) and the bytes of each item with its separator.
   */
  datatype Layout = Layout(envelope: nat, brackets: nat, weight: string -> nat)

  predicate Mentions(es: seq<Entry>, list: List) {
    exists e :: e in es && e.list == list
  }

  function Weigh(l: Layout, es: seq<Entry>): nat {
    if es == [] then 0 else Weigh(l, es[..|es| - 1]) + l.weight(es[|es| - 1].item)
  }

  ghost function StyledSize(l: Layout): Frame -> nat {
    (f: Frame) => l.envelope + Digits(f.index) + (if f.more then 4 else 5) + Weigh(l, f.entries)
                  + (if Mentions(f.entries, ApplyList) then l.brackets else 0)
                  + (if Mentions(f.entries, FriendList) then l.brackets else 0)
  }

  lemma {:induction false} WeighConcat(l: Layout, a: seq<Entry>, b: seq<Entry>)
    ensures Weigh(l, a + b) == Weigh(l, a) + Weigh(l, b)
    decreases |b|
  {
    if b == [] {
      assert a + b == a;
    } else {
      WeighConcat(l, a, b[..|b| - 1]);
      assert (a + b)[..|a + b| - 1] == a + b[..|b| - 1];
    }
  }

  lemma WeighShrinks(l: Layout, all: seq<Entry>, i: nat, i': nat, j': nat, j: nat)
    requires i <= i' <= j' <= j <= |all|
    ensures Weigh(l, all[i'..j']) <= Weigh(l, all[i..j])
  {
    var front, middle, back := all[i..i'], all[i'..j'], all[j'..j];
    assert all[i..j] == front + middle + back;
    WeighConcat(l, front, middle);
    WeighConcat(l, front + middle, back);
  }

  lemma MentionsShrinks(all: seq<Entry>, i: nat, i': nat, j': nat, j: nat, list: List)
    requires i <= i' <= j' <= j <= |all| && Mentions(all[i'..j'], list)
    ensures Mentions(all[i..j], list)
  {
    var e :| e in all[i'..j'] && e.list == list;
    var k :| 0 <= k < j' - i' && all[i'..j'][k] == e;
    assert all[i..j][i' - i + k] == e;
  }

  lemma StyledShrinks(l: Layout, all: seq<Entry>, i: nat, i': nat, j': nat, j: nat, k': nat, k: nat)
    requires Nested(all, i, i', j', j, k', k)
    ensures StyledSize(l)(Frame(all[i'..j'], false, k')) <= StyledSize(l)(Frame(all[i..j], false, k))
  {
    DigitsGrow(k', k);
    WeighShrinks(l, all, i, i', j', j);
    if Mentions(all[i'..j'], ApplyList) {
      MentionsShrinks(all, i, i', j', j, ApplyList);
    }
    if Mentions(all[i'..j'], FriendList) {
      MentionsShrinks(all, i, i', j', j, FriendList);
    }
  }

  /** So every theorem about a monotone size holds for the printer the server uses. */
  lemma StyledSizeIsMonotone(l: Layout)
    ensures Monotone(StyledSize(l))
  {
    var size := StyledSize(l);
    forall all: seq<Entry>, i: nat, i': nat, j': nat, j: nat, k': nat, k: nat | Nested(all, i, i', j', j, k', k)
      ensures size(Frame(all[i'..j'], false, k')) <= size(Frame(all[i..j], false, k))
    {
      StyledShrinks(l, all, i, i', j', j, k', k);
    }
  }

  // ----------------------------------------------------------- implementation

  class Packer {
    const size: Frame -> nat
    ghost const all: seq<Entry>
    var current: Frame
    var frames: seq<Frame>
    var totalBytes: nat
    ghost var pos: nat         // entries consumed so far
    ghost var cuts: seq<nat>   // where the finished frames end

    ghost predicate Valid()
      reads this
    {
      && Monotone(size)
      && Greedy(size, all, cuts) && |cuts| == |frames| + 1
      && cuts[|frames|] <= pos <= |all| && Flatten(frames) == all[..cuts[|frames|]]
      && (forall k :: 0 <= k < |frames| ==>
            frames[k].index == k && frames[k].more && size(frames[k]) <= MAX_LENGTH)
      && |frames| <= MAX_CHUNKS && totalBytes <= |frames| * MAX_LENGTH
      && current == Frame(all[cuts[|frames|]..pos], false, |frames|)
    }

    /** The current frame is measured, and holds an entry unless nothing was consumed yet. */
    ghost predicate Settled()
      reads this
    {
      && Valid()
      && size(current) <= MAX_LENGTH
      && (cuts[|frames|] == pos ==> pos == 0 && frames == [])
    }

    constructor (size: Frame -> nat, ghost all: seq<Entry>)
      requires Monotone(size)
      ensures this.size == size && this.all == all
      ensures Valid() && pos == 0 && frames == [] && current == Frame([], false, 0)
    {
      this.size, this.all := size, all;
      current, frames, totalBytes := Frame([], false, 0), [], 0;
      pos, cuts := 0, [0];
    }

    /** The bytes guard of the source is in the condition but never decides the outcome. */
    method Append(more: bool) returns (ok: bool)
      requires Settled()
      modifies this`current, this`frames, this`totalBytes
      ensures ok <==> |old(frames)| < MAX_CHUNKS
      ensures !ok ==> current == old(current) && frames == old(frames) && totalBytes == old(totalBytes)
      ensures ok ==> frames == old(frames) + [old(current).(more := more)]
                     && size(frames[|frames| - 1]) <= MAX_LENGTH
                     && current == Frame([], false, |frames|)
                     && totalBytes <= |frames| * MAX_LENGTH
    {
      var body := current.(more := more);
      assert size(body) <= MAX_LENGTH by {
        assert size(Frame(current.entries, true, |frames|)) <= size(Frame(current.entries, false, |frames|));
      }
      if |frames| >= MAX_CHUNKS || size(body) > MAX_LENGTH || totalBytes + size(body) > MAX_BYTES {
        return false;
      }
      frames := frames + [body];
      totalBytes := totalBytes + size(body);
      current := Frame([], false, |frames|);
      return true;
    }

    /** Closes the current frame because the next entry has no room in it. */
    method CloseFrame() returns (ok: bool)
      requires Settled() && cuts[|frames|] < pos < |all|
      requires !Fits(size, all, cuts[|frames|], pos + 1, |frames|)
      modifies this`current, this`frames, this`totalBytes, this`cuts
      ensures ok ==> Valid() && cuts[|frames|] == pos
      ensures !ok ==> !Splittable(size, all)
    {
      ghost var from := cuts[|frames|];
      ok := Append(true);
      if !ok {
        NoSplitAfterMaxChunks(size, all, cuts);
        return;
      }
      FlattenExtends(old(frames), old(current).(more := true), all, from, pos);
      ExtendGreedy(size, all, cuts, pos);
      cuts := cuts + [pos];
      assert all[pos..pos] == [];
    }

    /** Measures the current frame with the next entry appended, and keeps it if it fits. */
    method Place(entry: Entry) returns (ok: bool)
      requires Valid() && pos < |all| && entry == all[pos]
      modifies this`current, this`pos
      ensures ok <==> Fits(size, all, cuts[|frames|], old(pos) + 1, |frames|)
      ensures ok ==> Settled() && pos == old(pos) + 1
      ensures !ok ==> current == old(current) && pos == old(pos)
    {
      var candidate := current.(entries := current.entries + [entry]);
      assert candidate.entries == all[cuts[|frames|]..pos + 1];
      if size(candidate) > MAX_LENGTH {
        return false;
      }
      current := candidate;
      pos := pos + 1;
      return true;
    }

    /** One round of the inner loop: the next entry joins the current frame or starts a new one. */
    method Add(entry: Entry) returns (ok: bool)
      requires Settled() && pos < |all| && entry == all[pos]
      modifies this
      ensures ok ==> Settled() && pos == old(pos) + 1
      ensures !ok ==> !Splittable(size, all)
    {
      ok := Place(entry);
      if ok {
        return;
      }
      if current.entries == [] {
        NoSplitWithOversizedEntry(size, all, cuts);
        return;
      }
      ok := CloseFrame();
      if !ok {
        return;
      }
      ok := Place(entry);
      if !ok {
        NoSplitWithOversizedEntry(size, all, cuts);
      }
    }
  }

  lemma ClosedIsFaithful(size: Frame -> nat, apply: seq<string>, friends: seq<string>, done: seq<Frame>, last: Frame)
    requires Flatten(done) + last.entries == All(apply, friends) && |done| < MAX_CHUNKS
    requires forall k :: 0 <= k < |done| ==> done[k].index == k && done[k].more && size(done[k]) <= MAX_LENGTH
    requires last.index == |done| && !last.more && size(last) <= MAX_LENGTH
    ensures Faithful(size, apply, friends, done + [last])
  {
    FlattenSnoc(done, last);
    BothListsRecovered(apply, friends, done + [last]);
  }

  lemma FlattenExtends(frames: seq<Frame>, last: Frame, all: seq<Entry>, from: nat, pos: nat)
    requires from <= pos <= |all| && Flatten(frames) == all[..from] && last.entries == all[from..pos]
    ensures Flatten(frames + [last]) == all[..pos]
  {
    FlattenSnoc(frames, last);
    assert all[..pos] == all[..from] + all[from..pos];
  }

  lemma FlattenSnoc(frames: seq<Frame>, last: Frame)
    ensures Flatten(frames + [last]) == Flatten(frames) + last.entries
  {
    assert (frames + [last])[..|frames|] == frames;
  }

  /** Closing the last frame over the remaining entries completes a valid split with the fewest frames. */
  lemma ClosedIsMinimal(size: Frame -> nat, all: seq<Entry>, g: seq<nat>)
    requires Monotone(size) && Greedy(size, all, g) && |g| <= MAX_CHUNKS
    requires Fits(size, all, g[|g| - 1], |all|, |g| - 1) && (g[|g| - 1] == |all| ==> |g| == 1)
    ensures Splittable(size, all)
    ensures FewestFrames(size, all, |g|)
  {
    GreedyIsSplit(size, all, g);
    forall cuts | ValidSplit(size, all, cuts) ensures |g| <= |cuts| - 1 {
      if g[|g| - 1] < |all| {
        MoreFramesNeeded(size, all, g, cuts);
      }
    }
  }

  /**
   Builds the frames of a login reply whose single printed form has `single` bytes.
   A chunked reply is faithful and uses the fewest frames any order-preserving split can use;
   when chunks are allowed and the reply is within MAX_BYTES, failure means that no split exists.
   */
  method BuildFrames(size: Frame -> nat, single: nat, apply: seq<string>, friends: seq<string>, allowChunks: bool)
      returns (reply: Snapshot)
    requires Monotone(size)
    ensures reply.Single? <==> single <= MAX_LENGTH
    ensures single > MAX_LENGTH ==>
              (reply.Chunks? <==> allowChunks && single <= MAX_BYTES && Splittable(size, All(apply, friends)))
    ensures reply.Chunks? ==> Faithful(size, apply, friends, reply.frames)
    ensures reply.Chunks? ==> FewestFrames(size, All(apply, friends), |reply.frames|)
  {
    if single <= MAX_LENGTH {
      return Single;
    }
    if !allowChunks || single > MAX_BYTES {
      return Failed;
    }
    ghost var all := All(apply, friends);
    var packer := new Packer(size, all);
    if size(packer.current) > MAX_LENGTH {
      NoSplitWithOversizedBase(size, all);
      return Failed;
    }
    for list := 0 to 2
      invariant fresh(packer) && packer.size == size && packer.all == all && packer.Settled()
      invariant packer.pos == if list == 0 then 0 else if list == 1 then |apply| else |all|
    {
      var name, items := if list == 0 then ApplyList else FriendList, if list == 0 then apply else friends;
      var ok := AddList(packer, name, items);
      if !ok {
        return Failed;
      }
    }
    reply := Complete(packer, apply, friends);
  }

  /** The inner loop: one list of the reply, item by item. */
  method AddList(packer: Packer, name: List, items: seq<string>) returns (ok: bool)
    requires packer.Settled() && packer.pos + |items| <= |packer.all|
    requires packer.all[packer.pos..packer.pos + |items|] == Tagged(name, items)
    modifies packer
    ensures ok ==> packer.Settled() && packer.pos == old(packer.pos) + |items|
    ensures !ok ==> !Splittable(packer.size, packer.all)
  {
    ghost var base, all := packer.pos, packer.all;
    ghost var mine := all[base..base + |items|];
    for i := 0 to |items|
      invariant packer.Settled() && packer.pos == base + i
    {
      assert all[base + i] == mine[i] == Tagged(name, items)[i] == Entry(name, items[i]);
      ok := packer.Add(Entry(name, items[i]));
      if !ok {
        return;
      }
    }
    ok := true;
  }

  /** The closing part of BuildFrames: the last frame says that there is no more. */
  method Complete(packer: Packer, ghost apply: seq<string>, ghost friends: seq<string>) returns (reply: Snapshot)
    requires packer.Settled() && packer.all == All(apply, friends) && packer.pos == |packer.all|
    modifies packer
    ensures !reply.Single?
    ensures reply.Chunks? <==> Splittable(packer.size, packer.all)
    ensures reply.Chunks? ==> Faithful(packer.size, apply, friends, reply.frames)
    ensures reply.Chunks? ==> FewestFrames(packer.size, packer.all, |reply.frames|)
  {
    ghost var g, done, last := packer.cuts, packer.frames, packer.current;
    var ok := packer.Append(false);
    if !ok {
      NoSplitAfterMaxChunks(packer.size, packer.all, g);
      return Failed;
    }
    assert last.(more := false) == last;
    assert packer.all == packer.all[..g[|done|]] + packer.all[g[|done|]..|packer.all|];
    ClosedIsFaithful(packer.size, apply, friends, done, last);
    ClosedIsMinimal(packer.size, packer.all, g);
    return Chunks(packer.frames);
  }
}
