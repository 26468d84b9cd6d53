/**
 Several transactions over one target, one at a time. A later installation buries an earlier pair, so a
 journal's claim about the target holds exactly while the target is one of the two objects it names.
 */
module PretoolguardStack {
  import opened Wrappers
  import opened PretoolguardJournal
  import opened PretoolguardDisk

  // The object at the hook's name, and the private side of every transaction.
  datatype World = World(target: Object, txs: seq<Disk>)

  function View(w: World, k: nat): Disk
    requires k < |w.txs|
  {
    w.txs[k].(target := w.target)
  }

  function Before(d: Disk): Object
    requires d.records != []
  {
    Object(d.records[0].original, d.records[0].originalMetadata)
  }

  function After(d: Disk): Object
    requires d.records != []
  {
    Object(d.records[0].installed, d.records[0].installedMetadata)
  }

  // The transaction as it would be with the other one of its two objects at the target.
  function Own(d: Disk): Disk
    requires d.records != []
  {
    d.(target := if d.retained == Some(Before(d)) then After(d) else Before(d))
  }

  // The object in a private directory is at no other name.
  ghost predicate HeldApart(w: World, k: nat)
    requires k < |w.txs| && w.txs[k].retained.Some?
  {
    && w.txs[k].retained.value.id != w.target.id
    && forall j :: 0 <= j < |w.txs| && j != k && w.txs[j].retained.Some? ==> w.txs[j].retained.value.id != w.txs[k].retained.value.id
  }

  // No other journal knows it either.
  ghost predicate Unknown(w: World, k: nat)
    requires k < |w.txs| && w.txs[k].retained.Some?
  {
    forall j :: 0 <= j < |w.txs| && j != k && w.txs[j].records != [] ==> !Mine(w.txs[j], w.txs[k].retained.value.id)
  }

  // A new file, as long as it is only staged, has an identity that no other object has or had.
  ghost predicate StagedApart(w: World) {
    forall k :: 0 <= k < |w.txs| && w.txs[k].records == [] && w.txs[k].retained.Some? ==> HeldApart(w, k) && Unknown(w, k)
  }

  predicate Begins(w: World, w': World) {
    && |w'.txs| == |w.txs| + 1 && w'.txs[..|w.txs|] == w.txs && w'.target == w.target
    && Initial(w'.txs[|w.txs|]) && w'.txs[|w.txs|].target == w.target
  }

  // One transaction acts; a power loss is also every other one's.
  ghost predicate Acts(w: World, w': World, k: nat)
    requires k < |w.txs|
  {
    && |w'.txs| == |w.txs| && w'.txs[k].target == w'.target
    && (forall j :: 0 <= j < |w.txs| && j != k ==> !w.txs[j].Dirty() && Beside(w.txs[j], w'.txs[j], w'.target))
    && Step(View(w, k), w'.txs[k])
  }

  // What happens meanwhile to a transaction that does not act.
  predicate Beside(d: Disk, e: Disk, target: Object) {
    e == d || Crash(d.(target := target), e.(target := target))
  }

  ghost predicate Moves(w: World, w': World) {
    StagedApart(w') && ((Begins(w, w') && forall k :: 0 <= k < |w.txs| ==> !w.txs[k].Dirty())
                        || exists k :: 0 <= k < |w.txs| && Acts(w, w', k))
  }

  ghost predicate IsHistory(run: seq<World>) {
    && run != [] && run[0].txs == []
    && forall i :: 0 < i < |run| ==> Moves(run[i - 1], run[i])
  }

  // ---- The invariant ----

  ghost predicate Kept(d: Disk) {
    if d.records == [] then
      d.synced == 0 && !d.Dirty() && (d.torn ==> d.AllKept()) && (d.tornKept ==> d.torn)
    else
      && (d.retained == Some(Before(d)) || d.retained == Some(After(d)))
      && Placed(Own(d), Before(d)) && Sound(d.records, d.width)
  }

  ghost predicate Apart(w: World) {
    forall k :: 0 <= k < |w.txs| && w.txs[k].retained.Some? ==> HeldApart(w, k)
  }

  // An object with the identity of a recorded one is that object.
  predicate Agreed(d: Disk, o: Object) {
    d.records != [] ==> (o.id == Before(d).id ==> o == Before(d)) && (o.id == After(d).id ==> o == After(d))
  }

  ghost predicate Coherent(w: World) {
    && (forall k :: 0 <= k < |w.txs| ==> Agreed(w.txs[k], w.target))
    && (forall k, j :: 0 <= k < |w.txs| && 0 <= j < |w.txs| && w.txs[j].retained.Some? ==> Agreed(w.txs[k], w.txs[j].retained.value))
  }

  ghost predicate Inv(w: World) {
    && Apart(w) && Coherent(w) && (forall k :: 0 <= k < |w.txs| ==> Kept(w.txs[k]))
    && (forall k :: 0 <= k < |w.txs| && w.txs[k].Dirty() ==> w.txs[k].records != [] && View(w, k) == Own(w.txs[k]))
  }

  /** While one of its own two objects is at the target, a transaction's pair is exactly the two. */
  lemma MineIsOwn(w: World, k: nat)
    requires Inv(w) && k < |w.txs| && w.txs[k].records != [] && Mine(w.txs[k], w.target.id)
    ensures View(w, k) == Own(w.txs[k])
  {
    assert Kept(w.txs[k]) && HeldApart(w, k) && Agreed(w.txs[k], w.target);
  }

  // ---- One transaction's steps keep its own account ----

  lemma PlacedIsOwn(e: Disk, first: Object)
    requires Placed(e, first) && e.records != [] && Sound(e.records, e.width)
    ensures e == Own(e) && Before(e) == first && Kept(e)
  {
    assert ExactPair(e) && Before(e) != After(e);
  }

  lemma OwnStep(d: Disk, e: Disk)
    requires Kept(d) && d.records != [] && Step(Own(d), e)
    ensures Kept(e) && (e.Dirty() ==> e.records != [] && e == Own(e))
  {
    StepKeepsPlaced(Own(d), e, Before(d));
    if e.records != [] {
      StepKeepsSound(Own(d), e);
      PlacedIsOwn(e, Before(d));
    }
  }

  lemma StagedIsPlaced(d: Disk)
    requires Kept(d) && d.records == []
    ensures Placed(d, d.target)
  {
  }

  lemma PlacedIsStaged(e: Disk, first: Object)
    requires Placed(e, first) && e.records == []
    ensures Kept(e) && !e.Dirty()
  {
  }

  lemma StagedStep(d: Disk, e: Disk)
    requires Kept(d) && d.records == [] && Step(d, e)
    ensures Kept(e) && !e.Dirty()
  {
    StagedIsPlaced(d);
    StepKeepsPlaced(d, e, d.target);
    if e.records == [] {
      PlacedIsStaged(e, d.target);
    } else {
      StepKeepsSound(d, e);
      PlacedIsOwn(e, d.target);
      FirstIsAppended(d, e);
    }
  }

  // A first record comes by an append only.
  lemma FirstIsAppended(d: Disk, e: Disk)
    requires d.records == [] && Step(d, e) && e.records != []
    ensures Appended(d, e)
  {
    if Effect(d, e) {
      EffectKeepsRecords(d, e);
    }
  }

  // Behind another pair a transaction can sync, tear a line, or write a prepared record, but not swap.
  lemma BuriedStep(d: Disk, target: Object, e: Disk)
    requires Kept(d) && d.records != [] && !d.Dirty() && !Mine(d, target.id) && Step(d.(target := target), e)
    ensures Kept(e) && !e.Dirty() && SameNames(e, d.(target := target))
    ensures e.records != [] || d.synced == 0
  {
    var view, own := d.(target := target), Own(d);
    assert LegalJournal(d.records);
    if Appended(view, e) {
      var rec := e.Last();
      assert IsPrepared(rec.phase);
      WriteKeepsPlaced(own, rec, Before(d));
      SoundAppend(d.records, d.width, rec);
    } else if Crash(view, e) {
      BuriedCrash(d, target, e);
    } else {
      BuriedEffect(d, target, e);
    }
  }

  lemma BuriedCrash(d: Disk, target: Object, e: Disk)
    requires Kept(d) && d.records != [] && !d.Dirty() && Crash(d.(target := target), e)
    ensures Kept(e) && !e.Dirty() && SameNames(e, d.(target := target)) && (e.records != [] || d.synced == 0)
  {
    var own := Own(d);
    assert d.AllKept();
    CrashKeepsPlaced(own, e.(target := own.target), Before(d));
    if e.records != [] {
      CrashKeepsSound(d.(target := target), e);
      assert e.records[0] == d.records[0];
    }
  }

  lemma BuriedEffect(d: Disk, target: Object, e: Disk)
    requires Kept(d) && d.records != [] && !d.Dirty() && !Mine(d, target.id) && Effect(d.(target := target), e)
    ensures Kept(e) && !e.Dirty() && SameNames(e, d.(target := target)) && e.records == d.records
  {
    var view, own := d.(target := target), Own(d);
    SyncsKeepPlaced(own, Before(d));
    EffectKeepsRecords(view, e);
    assert !CanSwap(view);
    assert Effect(own, e.(target := own.target));
    EffectKeepsPlaced(own, e.(target := own.target), Before(d));
  }

  // ---- What a step does to the names ----

  // Nothing moved, or transaction k exchanged its two; unrecorded private directories aside.
  ghost predicate NamesStep(w: World, w': World, k: nat)
    requires k < |w.txs| == |w'.txs|
  {
    && (forall j :: 0 <= j < |w.txs| && j != k && w'.txs[j].records != [] ==> w'.txs[j].retained == w.txs[j].retained)
    && (|| (w'.target == w.target && (w'.txs[k].records != [] ==> w'.txs[k].retained == w.txs[k].retained))
        || (&& w.txs[k].records != [] && w'.txs[k].records != [] && w.txs[k].retained == Some(w'.target)
            && w'.txs[k].retained == Some(w.target) && w'.txs[k].records[0] == w.txs[k].records[0]))
  }

  // The names of one disk, before and after.
  predicate SameOrSwapped(d: Disk, e: Disk) {
    || (e.target == d.target && (e.records != [] ==> e.retained == d.retained))
    || (d.records != [] && e.records != [] && d.retained == Some(e.target) && e.retained == Some(d.target)
        && e.records[0] == d.records[0])
  }

  lemma CrashNames(d: Disk, e: Disk)
    requires Crash(d, e) && (d.records != [] ==> d.AllKept()) && (d.Dirty() ==> d.records != [] && d.synced == |d.records|)
    ensures SameOrSwapped(d, e)
  {
  }

  lemma SyncNames(d: Disk)
    ensures SameOrSwapped(d, JournalSynced(d)) && SameOrSwapped(d, ParentSynced(d)) && SameOrSwapped(d, PrivateSynced(d))
  {
  }

  lemma SwapNames(d: Disk)
    requires CanSwap(d)
    ensures SameOrSwapped(d, Swapped(d))
  {
  }

  lemma EffectNames(d: Disk, e: Disk)
    requires Effect(d, e)
    ensures SameOrSwapped(d, e)
  {
    SyncNames(d);
    if CanSwap(d) {
      SwapNames(d);
    }
  }

  lemma AppendNames(d: Disk, e: Disk)
    requires Appended(d, e)
    ensures SameOrSwapped(d, e)
  {
  }

  lemma KeptMeans(d: Disk)
    requires Kept(d) && (d.Dirty() ==> d.records != [])
    ensures (d.records != [] ==> d.AllKept()) && (d.Dirty() ==> d.records != [] && d.synced == |d.records|)
  {
  }

  lemma ActorNames(d: Disk, e: Disk)
    requires Step(d, e)
    requires (d.records != [] ==> d.AllKept()) && (d.Dirty() ==> d.records != [] && d.synced == |d.records|)
    ensures SameOrSwapped(d, e)
  {
    if Effect(d, e) {
      EffectNames(d, e);
    } else if Appended(d, e) {
      AppendNames(d, e);
    } else {
      CrashNames(d, e);
    }
  }

  lemma BesideNames(d: Disk, e: Disk, target: Object)
    requires !d.Dirty() && Beside(d, e, target)
    ensures e.records != [] ==> d.records != [] && e.retained == d.retained && e.records[0] == d.records[0]
  {
  }

  lemma BesideKept(d: Disk, e: Disk, target: Object)
    requires Kept(d) && !d.Dirty() && Beside(d, e, target)
    ensures Kept(e) && !e.Dirty()
  {
    if e != d {
      if d.records == [] {
        StagedStep(d.(target := target), e.(target := target));
      } else {
        BuriedCrash(d, target, e.(target := target));
      }
    }
  }

  lemma ActorKept(w: World, w': World, k: nat)
    requires Inv(w) && k < |w.txs| && Acts(w, w', k)
    ensures Kept(w'.txs[k]) && (w'.txs[k].Dirty() ==> w'.txs[k].records != [] && View(w', k) == Own(w'.txs[k]))
  {
    var d := w.txs[k];
    assert Kept(d);
    if d.records == [] {
      StagedStep(View(w, k), w'.txs[k]);
    } else if Mine(d, w.target.id) {
      MineIsOwn(w, k);
      OwnStep(d, w'.txs[k]);
    } else {
      BuriedStep(d, w.target, w'.txs[k]);
    }
  }

  lemma ActsNames(w: World, w': World, k: nat)
    requires Inv(w) && k < |w.txs| && Acts(w, w', k)
    ensures NamesStep(w, w', k)
  {
    assert Kept(w.txs[k]);
    KeptMeans(w.txs[k]);
    ActorNames(View(w, k), w'.txs[k]);
    forall j | 0 <= j < |w.txs| && j != k && w'.txs[j].records != []
      ensures w'.txs[j].retained == w.txs[j].retained
    {
      BesideNames(w.txs[j], w'.txs[j], w'.target);
    }
  }

  // A recorded transaction's object is apart from the target and from every other recorded one's.
  lemma RecordedApart(w: World, w': World, k: nat, i: nat)
    requires Apart(w) && k < |w.txs| == |w'.txs| && NamesStep(w, w', k) && StagedApart(w')
    requires i < |w'.txs| && w'.txs[i].records != [] && w'.txs[i].retained.Some?
    ensures HeldApart(w', i)
  {
    if w.txs[k].retained.Some? {
      assert HeldApart(w, k);
    }
    if w.txs[i].retained.Some? {
      assert HeldApart(w, i);
    }
    forall j | 0 <= j < |w'.txs| && j != i && w'.txs[j].retained.Some?
      ensures w'.txs[j].retained.value.id != w'.txs[i].retained.value.id
    {
      if w'.txs[j].records == [] {
        assert HeldApart(w', j);
      } else if w.txs[j].retained.Some? {
        assert HeldApart(w, j);
      }
    }
  }

  lemma NamesKeepApart(w: World, w': World, k: nat)
    requires Apart(w) && k < |w.txs| == |w'.txs| && NamesStep(w, w', k) && StagedApart(w')
    ensures Apart(w')
  {
    forall i | 0 <= i < |w'.txs| && w'.txs[i].retained.Some?
      ensures HeldApart(w', i)
    {
      if w'.txs[i].records != [] {
        RecordedApart(w, w', k, i);
      }
    }
  }

  // ---- Identities stay tied to objects ----

  // A journal's first line stays, or is written about the two names as they are.
  predicate FirstLine(d: Disk, e: Disk) {
    e.records != [] ==>
      if d.records != [] then e.records[0] == d.records[0]
      else Before(e) == d.target == e.target && e.retained == Some(After(e))
  }

  lemma ActorFirstLine(d: Disk, e: Disk)
    requires Step(d, e)
    ensures FirstLine(d, e)
  {
    if Effect(d, e) {
      EffectKeepsRecords(d, e);
    } else if Appended(d, e) {
      AppendFirstLine(d, e);
    }
  }

  lemma AppendFirstLine(d: Disk, e: Disk)
    requires Appended(d, e)
    ensures FirstLine(d, e)
  {
    assert e.records[|e.records| - 1] == e.Last();
  }

  lemma StagedAgrees(w: World, i: nat, j: nat)
    requires StagedApart(w) && i < |w.txs| && j < |w.txs| && w.txs[j].records == [] && w.txs[j].retained.Some?
    ensures Agreed(w.txs[i], w.txs[j].retained.value)
  {
    assert Unknown(w, j);
  }

  // The newly recorded pair is at its two names, and every other name is apart from both.
  lemma NewlyAgrees(w: World, k: nat, o: Object)
    requires Apart(w) && k < |w.txs| && w.txs[k].records != [] && w.txs[k].retained == Some(After(w.txs[k]))
    requires Before(w.txs[k]) == w.target
    requires o == w.target || exists j :: 0 <= j < |w.txs| && w.txs[j].retained == Some(o)
    ensures Agreed(w.txs[k], o)
  {
    assert HeldApart(w, k);
    if o != w.target {
      var j :| 0 <= j < |w.txs| && w.txs[j].retained == Some(o);
      assert HeldApart(w, j);
    }
  }

  predicate IsName(w: World, o: Object) {
    o == w.target || exists j :: 0 <= j < |w.txs| && w.txs[j].retained == Some(o)
  }

  lemma NamesAgree(w: World, i: nat, o: Object)
    requires Coherent(w) && i < |w.txs| && IsName(w, o)
    ensures Agreed(w.txs[i], o)
  {
  }

  lemma CoherentStep(w: World, w': World, k: nat, i: nat, o: Object)
    requires Inv(w) && k < |w.txs| && Acts(w, w', k) && NamesStep(w, w', k) && Apart(w') && i < |w.txs|
    requires IsName(w, o) && IsName(w', o)
    ensures Agreed(w'.txs[i], o)
  {
    NamesAgree(w, i, o);
    if i == k {
      ActorFirstLine(View(w, k), w'.txs[k]);
      if w.txs[k].records == [] && w'.txs[k].records != [] {
        NewlyAgrees(w', k, o);
      }
    } else {
      BesideNames(w.txs[i], w'.txs[i], w'.target);
    }
  }

  lemma ActsKeepsCoherent(w: World, w': World, k: nat)
    requires Inv(w) && k < |w.txs| && Acts(w, w', k) && NamesStep(w, w', k) && Apart(w') && StagedApart(w')
    ensures Coherent(w')
  {
    forall i | 0 <= i < |w'.txs|
      ensures Agreed(w'.txs[i], w'.target)
    {
      CoherentStep(w, w', k, i, w'.target);
    }
    forall i, j | 0 <= i < |w'.txs| && 0 <= j < |w'.txs| && w'.txs[j].retained.Some?
      ensures Agreed(w'.txs[i], w'.txs[j].retained.value)
    {
      var o := w'.txs[j].retained.value;
      if w'.txs[j].records == [] {
        StagedAgrees(w', i, j);
      } else {
        assert w'.txs[j].retained == w.txs[j].retained || o == w.target;
        CoherentStep(w, w', k, i, o);
      }
    }
  }

  lemma ActsKeepsInv(w: World, w': World, k: nat)
    requires Inv(w) && k < |w.txs| && Acts(w, w', k) && StagedApart(w')
    ensures Inv(w')
  {
    ActsNames(w, w', k);
    NamesKeepApart(w, w', k);
    ActsKeepsCoherent(w, w', k);
    ActorKept(w, w', k);
    forall j | 0 <= j < |w.txs| && j != k
      ensures Kept(w'.txs[j]) && !w'.txs[j].Dirty()
    {
      BesideKept(w.txs[j], w'.txs[j], w'.target);
    }
  }

  lemma BeginsKeepsApart(w: World, w': World)
    requires Apart(w) && Begins(w, w')
    ensures Apart(w')
  {
    assert forall k :: 0 <= k < |w.txs| ==> w'.txs[k] == w.txs[k];
    forall k | 0 <= k < |w'.txs| && w'.txs[k].retained.Some?
      ensures HeldApart(w', k)
    {
      assert k < |w.txs| && HeldApart(w, k);
    }
  }

  lemma BeginsKeepsCoherent(w: World, w': World)
    requires Coherent(w) && Begins(w, w')
    ensures Coherent(w')
  {
    assert forall k :: 0 <= k < |w.txs| ==> w'.txs[k] == w.txs[k];
    forall k, j | 0 <= k < |w'.txs| && 0 <= j < |w'.txs| && w'.txs[j].retained.Some?
      ensures Agreed(w'.txs[k], w'.txs[j].retained.value)
    {
      assert j < |w.txs|;
      assert k < |w.txs| ==> Agreed(w.txs[k], w.txs[j].retained.value);
    }
  }

  lemma BeginsKeepsKept(w: World, w': World, k: nat)
    requires (forall j :: 0 <= j < |w.txs| ==> Kept(w.txs[j]) && !w.txs[j].Dirty()) && Begins(w, w') && k < |w'.txs|
    ensures Kept(w'.txs[k]) && !w'.txs[k].Dirty()
  {
    if k < |w.txs| {
      assert w'.txs[k] == w.txs[k];
    }
  }

  lemma BeginsKeepsInv(w: World, w': World)
    requires Inv(w) && Begins(w, w') && forall k :: 0 <= k < |w.txs| ==> !w.txs[k].Dirty()
    ensures Inv(w')
  {
    BeginsKeepsApart(w, w');
    BeginsKeepsCoherent(w, w');
    forall k | 0 <= k < |w'.txs|
      ensures Kept(w'.txs[k]) && !w'.txs[k].Dirty()
    {
      BeginsKeepsKept(w, w', k);
    }
  }

  lemma {:induction false} HistoryKeepsInv(run: seq<World>, i: nat)
    requires IsHistory(run) && i < |run|
    ensures Inv(run[i])
  {
    if i > 0 {
      HistoryKeepsInv(run, i - 1);
      var w, w' := run[i - 1], run[i];
      assert Moves(w, w');
      if Begins(w, w') && forall k :: 0 <= k < |w.txs| ==> !w.txs[k].Dirty() {
        BeginsKeepsInv(w, w');
      } else {
        var k :| 0 <= k < |w.txs| && Acts(w, w', k);
        ActsKeepsInv(w, w', k);
      }
    }
  }

  /**
   In every state of every run of any number of transactions: the objects at a recorded transaction's two
   names are its original and its installed object if and only if the object at the target is one of them;
   and then its durable journal agrees with the target.
   */
  lemma PairClaimHoldsIff(run: seq<World>, i: nat, k: nat)
    requires IsHistory(run) && i < |run| && k < |run[i].txs| && run[i].txs[k].records != []
    ensures var d := View(run[i], k);
            && d.retained.Some? && (ExactPair(d) <==> Mine(d, d.target.id))
            && (ExactPair(d) && d.synced == 0 ==> d.target == Before(d))
            && (ExactPair(d) && 0 < d.synced <= |d.records| ==> Agrees(d.records[d.synced - 1], d.target.id))
  {
    HistoryKeepsInv(run, i);
    var w := run[i];
    assert Kept(w.txs[k]);
    if Mine(w.txs[k], w.target.id) {
      MineIsOwn(w, k);
    }
  }

  /** No object is at two names, and a recorded transaction's private name always holds one of its own two. */
  lemma ObjectsStayApart(run: seq<World>, i: nat, k: nat)
    requires IsHistory(run) && i < |run| && k < |run[i].txs| && run[i].txs[k].retained.Some?
    ensures HeldApart(run[i], k)
    ensures run[i].txs[k].records != [] ==> Mine(run[i].txs[k], run[i].txs[k].retained.value.id)
  {
    HistoryKeepsInv(run, i);
    assert Kept(run[i].txs[k]);
  }

  /** Only a transaction that is not buried can exchange its names. */
  lemma BuriedCannotSwap(run: seq<World>, i: nat, k: nat)
    requires IsHistory(run) && i < |run| && k < |run[i].txs|
    requires run[i].txs[k].records != [] && !Mine(run[i].txs[k], run[i].target.id)
    ensures !CanSwap(View(run[i], k)) && !run[i].txs[k].Dirty()
  {
    HistoryKeepsInv(run, i);
  }

  // ---- A second installation does bury the first pair ----

  const WIDTH := 100

  function Id(inode: nat): Identity {
    Identity(1, inode, 0, 0, 493, inode)
  }

  function Thing(inode: nat): Object {
    Object(Id(inode), NoProvenance)
  }

  function Line(n: nat, phase: Phase, was: nat, now: nat): Record {
    Record(2, n, "hook", phase, Id(was), Id(now), Id(was), NoProvenance, NoProvenance)
  }

  function Fresh(target: Object): Disk {
    Disk(WIDTH, target, None, false, false, false, false, false, false, false, false, [], 0, false, false)
  }

  function Tx(target: nat, retained: nat, dirty: bool, records: seq<Record>, synced: nat): Disk {
    Disk(WIDTH, Thing(target), Some(Thing(retained)), true, true, true, true, true, true, dirty, dirty, records, synced, false, false)
  }

  // A prepared journal of one line.
  function Opened(n: nat, was: nat, now: nat): seq<Record> {
    [Line(n, InstallPrepared, was, now)]
  }

  lemma StagesAndSwaps(n: nat, was: nat, now: nat)
    requires 0 < was && 0 < now && was != now
    ensures Step(Fresh(Thing(was)), Tx(was, now, false, [], 0))
    ensures Step(Tx(was, now, false, [], 0), Tx(was, now, false, Opened(n, was, now), 0))
    ensures Step(Tx(was, now, false, Opened(n, was, now), 0), Tx(was, now, false, Opened(n, was, now), 1))
    ensures Step(Tx(was, now, false, Opened(n, was, now), 1), Tx(now, was, true, Opened(n, was, now), 1))
    ensures Step(Tx(now, was, true, Opened(n, was, now), 1), Tx(now, was, false, Opened(n, was, now), 1))
  {
    var empty, written := Tx(was, now, false, [], 0), Tx(was, now, false, Opened(n, was, now), 0);
    var rec := Line(n, InstallPrepared, was, now);
    assert Staging(Fresh(Thing(was)), empty);
    assert [] + [rec] == Opened(n, was, now) && written == Written(empty, rec) && written.Last() == rec;
    assert AppendAdmits([], WIDTH, rec);
    assert Appended(empty, written);
    assert Tx(was, now, false, Opened(n, was, now), 1) == JournalSynced(written);
    var done := Tx(was, now, false, Opened(n, was, now), 1);
    assert CanSwap(done) && Tx(now, was, true, Opened(n, was, now), 1) == Swapped(done);
  }

  lemma RunGrows(run: seq<World>, w: World)
    requires IsHistory(run) && Moves(run[|run| - 1], w)
    ensures IsHistory(run + [w])
  {
    var longer := run + [w];
    forall i | 0 < i < |longer|
      ensures Moves(longer[i - 1], longer[i])
    {
      if i < |run| {
        assert longer[i] == run[i] && longer[i - 1] == run[i - 1];
      }
    }
  }

  // The last transaction acts while the others rest.
  lemma LastActs(txs: seq<Disk>, d: Disk, e: Disk)
    requires Step(d, e) && forall j :: 0 <= j < |txs| ==> !txs[j].Dirty()
    ensures Acts(World(d.target, txs + [d]), World(e.target, txs + [e]), |txs|)
  {
    var w, w' := World(d.target, txs + [d]), World(e.target, txs + [e]);
    assert View(w, |txs|) == d && w'.txs[|txs|] == e;
    forall j | 0 <= j < |w.txs| && j != |txs|
      ensures !w.txs[j].Dirty() && w'.txs[j] == w.txs[j]
    {
      assert w.txs[j] == txs[j];
    }
  }

  // Recorded transactions that rest, and do not know the object that is about to be staged.
  ghost predicate Resting(txs: seq<Disk>, now: nat) {
    forall j :: 0 <= j < |txs| ==> RestingOne(txs[j], now)
  }

  predicate RestingOne(d: Disk, now: nat) {
    !d.Dirty() && d.records != [] && !Mine(d, Id(now)) && d.retained.Some? && d.retained.value.id != Id(now)
  }

  lemma LastApart(txs: seq<Disk>, target: Object, e: Disk, now: nat)
    requires Resting(txs, now) && e.retained.Some?
    requires e.records == [] ==> e.retained.value.id == Id(now) != target.id
    ensures StagedApart(World(target, txs + [e]))
  {
    var w := World(target, txs + [e]);
    assert forall j :: 0 <= j < |txs| ==> w.txs[j] == txs[j] && RestingOne(txs[j], now);
    forall k | 0 <= k < |w.txs| && w.txs[k].records == [] && w.txs[k].retained.Some?
      ensures HeldApart(w, k) && Unknown(w, k)
    {
      assert k == |txs|;
    }
  }

  // One installation, up to its swap and a loss of power that keeps it.
  lemma Installs(run: seq<World>, n: nat, was: nat, now: nat) returns (longer: seq<World>)
    requires IsHistory(run) && run[|run| - 1].target == Thing(was) && 0 < was && 0 < now && was != now
    requires Resting(run[|run| - 1].txs, now)
    ensures IsHistory(longer)
    ensures longer[|longer| - 1]
            == World(Thing(now), run[|run| - 1].txs + [Tx(now, was, false, Opened(n, was, now), 1)])
  {
    var txs := run[|run| - 1].txs;
    StagesAndSwaps(n, was, now);
    longer := run + [World(Thing(was), txs + [Fresh(Thing(was))])];
    assert Begins(run[|run| - 1], World(Thing(was), txs + [Fresh(Thing(was))]));
    assert forall k :: 0 <= k < |txs| ==> RestingOne(txs[k], now);
    assert StagedApart(World(Thing(was), txs + [Fresh(Thing(was))]));
    RunGrows(run, World(Thing(was), txs + [Fresh(Thing(was))]));
    longer := Next(longer, txs, Fresh(Thing(was)), Tx(was, now, false, [], 0), now);
    longer := Next(longer, txs, Tx(was, now, false, [], 0), Tx(was, now, false, Opened(n, was, now), 0), now);
    longer := Next(longer, txs, Tx(was, now, false, Opened(n, was, now), 0), Tx(was, now, false, Opened(n, was, now), 1), now);
    longer := Next(longer, txs, Tx(was, now, false, Opened(n, was, now), 1), Tx(now, was, true, Opened(n, was, now), 1), now);
    longer := Next(longer, txs, Tx(now, was, true, Opened(n, was, now), 1), Tx(now, was, false, Opened(n, was, now), 1), now);
  }

  lemma Next(run: seq<World>, txs: seq<Disk>, d: Disk, e: Disk, now: nat) returns (longer: seq<World>)
    requires IsHistory(run) && run[|run| - 1] == World(d.target, txs + [d]) && Step(d, e)
    requires e.retained.Some? && (e.records == [] ==> e.retained.value.id == Id(now) != e.target.id)
    requires Resting(txs, now)
    ensures IsHistory(longer) && longer[|longer| - 1] == World(e.target, txs + [e])
  {
    var w' := World(e.target, txs + [e]);
    LastApart(txs, e.target, e, now);
    assert forall j :: 0 <= j < |txs| ==> RestingOne(txs[j], now);
    LastActs(txs, d, e);
    RunGrows(run, w');
    longer := run + [w'];
  }

  /** Two installations in a row: the first journal is durable, and its pair is not at its two names. */
  lemma SecondInstallBuries() returns (run: seq<World>)
    ensures IsHistory(run)
    ensures var w := run[|run| - 1];
            && |w.txs| == 2 && w.txs[0].synced == |w.txs[0].records| == 1 && w.txs[1].records != []
            && !ExactPair(View(w, 0)) && ExactPair(View(w, 1))
  {
    run := [World(Thing(1), [])];
    run := Installs(run, 1, 1, 2);
    assert run[|run| - 1].txs == [Tx(2, 1, false, Opened(1, 1, 2), 1)];
    run := Installs(run, 2, 2, 3);
    var w := run[|run| - 1];
    assert w.txs == [Tx(2, 1, false, Opened(1, 1, 2), 1), Tx(3, 2, false, Opened(2, 2, 3), 1)];
  }
}
