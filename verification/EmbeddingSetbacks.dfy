/** Two ways an owner gets into trouble, each with a run that does it: its text is edited and edited back, and its text
    becomes unrepresentable while the provider works. */
module EmbeddingSetbacks {
  import opened EmbeddingRows
  import opened EmbeddingService
  import opened EmbeddingSafety
  import opened EmbeddingTheorems
  import opened EmbeddingProspects

  // ---- a text edited and edited back -------------------------------------------------------------

  /** Completing one row turns an earlier success of the same owner and index stale. */
  lemma DemotesRival(rows: Rows, a: Id, b: Id, w: Id, lease: Time, now: Time, vector: Vector)
    requires a in rows && b in rows && a != b && rows[a].status.Succeeded? && CanClaim(rows[b], now)
    requires rows[b].ownerId == rows[a].ownerId && rows[b].Index() == rows[a].Index()
    ensures var after := Completed(Claimed(rows, b, w, lease, now), b, w, vector, now);
            a in after && after[a] == rows[a].(status := Stale)
  {
    assert Superseded(Claimed(rows, b, w, lease, now), b, a);
  }

  /** With row b of the new text waiting, embedding it and editing back spends row a of the old text. */
  lemma EditedBackIsSpent(s: System, a: Id, b: Id, old_: Catalogue, w: Id, lease: Time, backoff: Time)
    requires a in s.rows && b in s.rows && w !in s.workers
    requires s.rows[a].status.Succeeded? && old_.Consistent() && old_.Owns(s.kind, s.rows[a])
    requires Matches(LoadSource(old_, s.kind, s.rows[a].ownerId), s.rows[a])
    requires s.rows[b].ownerId == s.rows[a].ownerId && s.rows[b].Index() == s.rows[a].Index()
    requires a != b && CanClaim(s.rows[b], s.now)
    requires Matches(LoadSource(s.cat, s.kind, s.rows[b].ownerId), s.rows[b])
    ensures var key := s.rows[a].key;
            var t := Run(s, Embed(w, b, Fitting(s.rows[b].key), lease, backoff) + [Edit(old_)]);
            && t.cat == old_ && Describes(t, s.rows[a].ownerId, key.identity, key.indexVersion, a)
            && t.rows[a].status.Stale?
  {
    var embed := Embed(w, b, Fitting(s.rows[b].key), lease, backoff);
    RunAppend(s, embed, [Edit(old_)]);
    UndisturbedCallSucceeds(s, w, b, lease, backoff);
    DemotesRival(s.rows, a, b, w, lease, s.now, CurrentVector(s, s.rows[b]));
    RunFirst(Run(s, embed), [Edit(old_)], Edit(old_), []);
  }

  /** The row of the old text survives the edit, and the new text gets a row of its own. */
  lemma EditAndEnqueue(s: System, a: Id, b: Id, edited: Catalogue, maxAttempts: int)
    requires Inv(s) && a in s.rows && b !in s.usedIds && maxAttempts >= 1
    requires edited.Consistent() && edited.Owns(s.kind, s.rows[a]) && NewText(s, a, edited)
    ensures var key := s.rows[a].key;
            var t := Apply(Apply(s, Edit(edited)),
                           Enqueue(s.rows[a].ownerId, key.identity, key.indexVersion, maxAttempts, b));
            && t.kind == s.kind && t.cat == edited && t.now == s.now && t.workers == s.workers
            && a in t.rows && t.rows[a] == s.rows[a] && a != b && b in t.rows && CanClaim(t.rows[b], t.now)
            && t.rows[b].ownerId == s.rows[a].ownerId && t.rows[b].Index() == s.rows[a].Index()
            && Matches(LoadSource(t.cat, t.kind, t.rows[b].ownerId), t.rows[b])
  {
  }

  /** The edit gives the row's owner a representation, of the same version, for which there is no row yet. */
  predicate NewText(s: System, a: Id, edited: Catalogue)
    requires a in s.rows
  {
    var loaded := LoadSource(edited, s.kind, s.rows[a].ownerId);
    && loaded.Live? && loaded.source.version == s.rows[a].key.version
    && forall i | i in s.rows ::
         !Same(s.rows[i], s.rows[a].ownerId, KeyOf(loaded.source, s.rows[a].key.identity, s.rows[a].key.indexVersion))
  }

  /** Demotion meets reverted text. Row a is searchable; the text changes, the new representation is enqueued as row b
      and embedded, which demotes a; then the text changes back. The owner's present text is spent, so no run without
      another edit makes it searchable in that index. */
  lemma RevertedTextIsSpent(
    s: System, a: Id, b: Id, edited: Catalogue, maxAttempts: int, w: Id, lease: Time, backoff: Time)
    requires Inv(s) && a in s.rows && b !in s.usedIds && w !in s.workers && maxAttempts >= 1
    requires Searchable(s.cat, s.kind, s.rows[a], s.rows[a].Index())
    requires edited.Consistent() && edited.Owns(s.kind, s.rows[a]) && NewText(s, a, edited)
    ensures var owner, key := s.rows[a].ownerId, s.rows[a].key;
            var t := Run(s, [Edit(edited), Enqueue(owner, key.identity, key.indexVersion, maxAttempts, b)]
                            + Embed(w, b, Fitting(key), lease, backoff) + [Edit(s.cat)]);
            && t.cat == s.cat && Describes(t, owner, key.identity, key.indexVersion, a) && t.rows[a].status.Stale?
            && Blocked(t, owner, key.identity, key.indexVersion)
  {
    var owner, key := s.rows[a].ownerId, s.rows[a].key;
    var edit, enqueue := Edit(edited), Enqueue(owner, key.identity, key.indexVersion, maxAttempts, b);
    var rest := Embed(w, b, Fitting(key), lease, backoff) + [Edit(s.cat)];
    var all := [edit, enqueue] + Embed(w, b, Fitting(key), lease, backoff) + [Edit(s.cat)];
    assert all == [edit] + ([enqueue] + rest);
    RunFirst(s, all, edit, [enqueue] + rest);
    RunFirst(Apply(s, edit), [enqueue] + rest, enqueue, rest);
    EditAndEnqueue(s, a, b, edited, maxAttempts);
    EditedBackIsSpent(Apply(Apply(s, edit), enqueue), a, b, s.cat, w, lease, backoff);
    assert Lost(Run(s, all), a);
  }

  // ---- the shop of the examples ------------------------------------------------------------------

  const Maker := Identity("provider", "model", "revision")

  /** One public product. */
  function Shop(rendering: Rendering): Catalogue {
    Catalogue("v1", map[1 := Product(1, true, rendering)], map[])
  }

  const TryOut := Provider(Maker, EMBEDDING_DIMENSIONS)

  /** Stock the shop and enqueue its product. */
  function Opening(text: string): seq<Action> {
    [Edit(Shop(Text(text))), Enqueue(1, Maker, "index", 3, 1)]
  }

  lemma Opened(text: string)
    ensures var t := Run(Initial(ProductKind), Opening(text));
            && t.kind == ProductKind && t.cat == Shop(Text(text)) && t.now == 0 && t.workers == map[]
            && t.usedIds == {1}
            && t.rows == map[1 := NewRow(1, 1, KeyOf(Source(1, 1, "v1", text), Maker, "index"), 3, 0)]
  {
    var edit, enqueue := Edit(Shop(Text(text))), Enqueue(1, Maker, "index", 3, 1);
    RunFirst(Initial(ProductKind), Opening(text), edit, [enqueue]);
    RunFirst(Apply(Initial(ProductKind), edit), [enqueue], enqueue, []);
  }

  /** It does happen: a product embedded for one text, then for another, then edited back is blocked. */
  lemma RevertedTextHappens()
    ensures var t := Run(Initial(ProductKind),
                         Opening("old") + Embed(1, 1, TryOut, 60, 1)
                         + ([Edit(Shop(Text("new"))), Enqueue(1, Maker, "index", 3, 2)] + Embed(2, 2, TryOut, 60, 1)
                            + [Edit(Shop(Text("old")))]));
            t.cat == Shop(Text("old")) && Blocked(t, 1, Maker, "index")
  {
    var first := Opening("old") + Embed(1, 1, TryOut, 60, 1);
    var s := Run(Initial(ProductKind), Opening("old"));
    Opened("old");
    UndisturbedCallSucceeds(s, 1, 1, 60, 1);
    RunAppend(Initial(ProductKind), Opening("old"), Embed(1, 1, TryOut, 60, 1));
    var s1 := Run(Initial(ProductKind), first);
    Reachable(ProductKind, first);
    assert s1.rows.Keys == {1};
    RevertedTextIsSpent(s1, 1, 2, Shop(Text("new")), 3, 2, 60, 1);
    RunAppend(Initial(ProductKind), first,
              [Edit(Shop(Text("new"))), Enqueue(1, Maker, "index", 3, 2)] + Embed(2, 2, TryOut, 60, 1)
              + [Edit(Shop(Text("old")))]);
  }

  // ---- a text that becomes unrepresentable -------------------------------------------------------

  /** The closing transaction raises exactly when the text has become unrepresentable, and then writes nothing. */
  lemma UnrepresentableRaises(s: System, w: Id)
    requires w in s.workers && s.workers[w].phase.Embedded?
    ensures Apply(s, Finish(w)).workers[w].phase.Raised?
       <==> LoadSource(s.cat, s.kind, s.workers[w].phase.row.ownerId).Invalid?
    ensures Apply(s, Finish(w)).workers[w].phase.Raised? ==> Apply(s, Finish(w)).rows == s.rows
    ensures !Apply(s, Finish(w)).workers[w].phase.Raised? ==> !Holds(Apply(s, Finish(w)).rows, s.workers[w].rowId, w)
  {
  }

  /** The step takes the row out of a holder's hands: an edit removes its owner, or another worker comes to claim it
      after the lease has expired. */
  predicate Frees(s: System, a: Action, id: Id) {
    && id in s.rows
    && match a
       case Edit(cat) => cat.Consistent() && !cat.Owns(s.kind, s.rows[id])
       case Start(w, rowId, _, _, _) => rowId == id && w !in s.workers && s.rows[id].LeaseExpired(s.now)
       case _ => false
  }

  predicate Freed(s: System, actions: seq<Action>, id: Id)
    decreases |actions|
  {
    actions != [] && (Frees(s, actions[0], id) || Freed(Apply(s, actions[0]), actions[1..], id))
  }

  predicate RaisedHolding(s: System, w: Id, id: Id) {
    w in s.workers && s.workers[w].phase.Raised? && s.workers[w].rowId == id && Holds(s.rows, id, w)
  }

  lemma RaisedStep(s: System, a: Action, w: Id, id: Id)
    requires id in s.usedIds && RaisedHolding(s, w, id)
    ensures !Frees(s, a, id) ==> RaisedHolding(Apply(s, a), w, id) && Apply(s, a).rows[id] == s.rows[id]
    ensures Frees(s, a, id) ==> Fenced(Apply(s, a), w) && Apply(s, a).workers[w].rowId == id
  {
    if id in Apply(s, a).rows {
      EveryRowStep(s, a, id);
    }
  }

  /** A worker that raised leaves its row exactly as it was, lease and all, until an edit removes the row or another
      worker comes after the lease has expired; and from then on it never is as it was. */
  lemma {:induction false} RaisedRowWaits(s: System, actions: seq<Action>, w: Id, id: Id)
    requires Inv(s) && RaisedHolding(s, w, id)
    ensures id in Run(s, actions).rows && Run(s, actions).rows[id] == s.rows[id] <==> !Freed(s, actions, id)
    decreases |actions|
  {
    if actions != [] {
      var t := Apply(s, actions[0]);
      RaisedStep(s, actions[0], w, id);
      StepKeepsInv(s, actions[0]);
      if Frees(s, actions[0], id) {
        FencedForever(t, w, actions[1..], Load(w));
        StaysItsRow(t, w, actions[1..]);
      } else {
        RaisedRowWaits(t, actions[1..], w, id);
      }
    }
  }

  lemma {:induction false} StaysItsRow(s: System, w: Id, actions: seq<Action>)
    requires w in s.workers
    ensures w in Run(s, actions).workers && Run(s, actions).workers[w].rowId == s.workers[w].rowId
    decreases |actions|
  {
    if actions != [] {
      StaysItsRow(Apply(s, actions[0]), w, actions[1..]);
    }
  }

  /** No edit makes the owner's text unrepresentable. */
  predicate EditsRepresent(actions: seq<Action>, kind: Kind, owner: Id) {
    forall i | 0 <= i < |actions| && actions[i].Edit? :: !LoadSource(actions[i].cat, kind, owner).Invalid?
  }

  predicate Calm(s: System, w: Id, owner: Id) {
    && w in s.workers && !s.workers[w].phase.Raised?
    && (s.workers[w].phase.Loading? || s.workers[w].phase.Embedding? || s.workers[w].phase.Embedded? ==>
          s.workers[w].phase.row.ownerId == owner)
    && (s.workers[w].phase.Embedding? || s.workers[w].phase.Embedded? ==> !LoadSource(s.cat, s.kind, owner).Invalid?)
  }

  lemma CalmStep(s: System, w: Id, owner: Id, a: Action)
    requires Calm(s, w, owner) && (a.Edit? ==> !LoadSource(a.cat, s.kind, owner).Invalid?)
    ensures Calm(Apply(s, a), w, owner) && Apply(s, a).kind == s.kind
  {
    if StepOf(a, w) {
      CalmOwnStep(s, w, owner, a);
    }
  }

  lemma CalmOwnStep(s: System, w: Id, owner: Id, a: Action)
    requires Calm(s, w, owner) && StepOf(a, w)
    ensures Calm(Apply(s, a), w, owner)
  {
  }

  /** Between a worker's load and its closing transaction, only an edit to something unrepresentable makes it raise. */
  lemma {:induction false} RaiseNeedsAnEdit(s: System, w: Id, owner: Id, actions: seq<Action>)
    requires Calm(s, w, owner) && EditsRepresent(actions, s.kind, owner)
    ensures w in Run(s, actions).workers && !Run(s, actions).workers[w].phase.Raised?
    decreases |actions|
  {
    if actions != [] {
      assert forall i | 0 <= i < |actions[1..]| :: actions[1..][i] == actions[i + 1];
      CalmStep(s, w, owner, actions[0]);
      RaiseNeedsAnEdit(Apply(s, actions[0]), w, owner, actions[1..]);
    }
  }

  /** A promising worker with its vector in hand raises if the text turns unrepresentable now. */
  lemma RaisesAfter(s: System, w: Id, id: Id, edited: Catalogue)
    requires Promising(s, w, id) && s.workers[w].phase.Embedded?
    requires edited.Consistent() && edited.Owns(s.kind, s.rows[id])
    requires LoadSource(edited, s.kind, s.rows[id].ownerId).Invalid?
    ensures RaisedHolding(Run(s, [Edit(edited), Finish(w)]), w, id)
  {
    RunFirst(s, [Edit(edited), Finish(w)], Edit(edited), [Finish(w)]);
    RunFirst(Apply(s, Edit(edited)), [Finish(w)], Finish(w), []);
  }

  /** It does happen: the text changes to something unrepresentable between the call and the closing transaction. */
  lemma RaisedHappens()
    ensures var t := Run(Initial(ProductKind),
                         Opening("text") + ([Start(1, 1, TryOut, 60, 1), Load(1), Call(1, Answered)]
                                            + [Edit(Shop(Unrepresentable)), Finish(1)]));
            RaisedHolding(t, 1, 1)
  {
    var s := Run(Initial(ProductKind), Opening("text"));
    var begun := [Start(1, 1, TryOut, 60, 1), Load(1), Call(1, Answered)];
    var ended := [Edit(Shop(Unrepresentable)), Finish(1)];
    Opened("text");
    RunAppend(Initial(ProductKind), Opening("text"), begun + ended);
    RunAppend(s, begun, ended);
    BegunIsPromising(s, 1, 1, 60, 1);
    RaisesAfter(Run(s, begun), 1, 1, Shop(Unrepresentable));
  }

  lemma BegunIsPromising(s: System, w: Id, id: Id, lease: Time, backoff: Time)
    requires id in s.rows && CanClaim(s.rows[id], s.now) && w !in s.workers
    requires Matches(LoadSource(s.cat, s.kind, s.rows[id].ownerId), s.rows[id])
    ensures var t := Run(s, [Start(w, id, Fitting(s.rows[id].key), lease, backoff), Load(w), Call(w, Answered)]);
            && Promising(t, w, id) && t.workers[w].phase.Embedded? && t.kind == s.kind
            && t.rows == Claimed(s.rows, id, w, lease, s.now)
  {
    var start := Start(w, id, Fitting(s.rows[id].key), lease, backoff);
    var s1 := Apply(s, start);
    var s2 := Apply(s1, Load(w));
    StartIsPromising(s, w, id, lease, backoff);
    PromisingStep(s1, w, id);
    PromisingStep(s2, w, id);
    RunFirst(s, [start, Load(w), Call(w, Answered)], start, [Load(w), Call(w, Answered)]);
    RunFirst(s1, [Load(w), Call(w, Answered)], Load(w), [Call(w, Answered)]);
    RunFirst(s2, [Call(w, Answered)], Call(w, Answered), []);
  }
}
