/** The editor-state machinery around tracked-change decorations: the field
    that holds comments cut from the document until they are pasted back, the
    undo effect that restores comments a change detached, and the plugin that
    keeps the decoration set up to date.

    The toolkit's position mapping is abstract: a `Mapping` knows the length
    of the document it applies to and where each old position ends up. */
module ChangeState {
  import opened Wrappers
  import opened TrackChanges

  datatype Mapping = Mapping(length: nat, mapPos: int -> int)

  /** A comment detached from the text by a change, known by its id. */
  datatype DetachedComment = DetachedComment(id: string)

  /** The state effects this extension reads or emits; `OtherEffect` stands
      for the effects of every other extension. */
  datatype Effect =
    | ClearChanges
    | BuildChanges
    | RestoreDetachedComments(comments: seq<Range<DetachedComment>>)
    | OtherEffect

  /** What a transaction exposes here: whether it changed the document,
      whether it came from a collaborator (the `remote` annotation), its
      user-event annotation, its changes as a mapping, and its effects. */
  datatype Transaction = Transaction(
    docChanged: bool,
    remote: bool,
    userEvent: Option<string>,
    changes: Mapping,
    effects: seq<Effect>)

  /** The toolkit's user-event test: the annotation is `event` itself or a
      more specific event below it (`event` followed by a dot). */
  predicate IsUserEvent(tr: Transaction, event: string) {
    match tr.userEvent
    case None => false
    case Some(e) =>
      e != "" && (e == event || (|e| > |event| && e[..|event|] == event && e[|event|] == '.'))
  }

  /** A matching user event starts with the event's first letter. */
  lemma UserEventHead(tr: Transaction, event: string)
    requires event != "" && IsUserEvent(tr, event)
    ensures tr.userEvent.Some? && tr.userEvent.value != "" && tr.userEvent.value[0] == event[0]
  {
  }

  /** A local edit of the document. */
  predicate LocalEdit(tr: Transaction) {
    tr.docChanged && !tr.remote
  }

  predicate Cuts(tr: Transaction) {
    LocalEdit(tr) && IsUserEvent(tr, "delete.cut")
  }

  predicate Pastes(tr: Transaction) {
    LocalEdit(tr) && IsUserEvent(tr, "input.paste")
  }

  /** No transaction is both a cut and a paste, so the order in which the
      cut-comments field tests them does not matter. */
  lemma CutPasteExclusive(tr: Transaction)
    ensures !(Cuts(tr) && Pastes(tr))
  {
    if Cuts(tr) && Pastes(tr) {
      UserEventHead(tr, "delete.cut");
      UserEventHead(tr, "input.paste");
    }
  }

  /** The cut-comments field's initial value. */
  function CutCommentsCreate<C>(): seq<C> {
    []
  }

  /** One update of the cut-comments field. `inCut` is what the comment
      finder reports for the transaction's cut ranges. */
  function CutCommentsUpdate<C>(value: seq<C>, tr: Transaction, inCut: seq<C>): (r: seq<C>)
    ensures Cuts(tr) ==> r == inCut
    ensures Pastes(tr) ==> r == []
    ensures !Cuts(tr) && !Pastes(tr) ==> r == value
  {
    CutPasteExclusive(tr);
    if tr.remote then value
    else if !tr.docChanged then value
    else if IsUserEvent(tr, "delete.cut") then inCut
    else if IsUserEvent(tr, "input.paste") then []
    else value
  }

  /** The comments a transaction hands to the paste restorer: the field's
      value on a local paste, nothing on any other transaction. */
  function PasteRestores<C>(value: seq<C>, tr: Transaction): (r: Option<seq<C>>)
    ensures r.Some? <==> Pastes(tr)
    ensures r.Some? ==> r.value == value
  {
    CutPasteExclusive(tr);
    if tr.remote then None
    else if !tr.docChanged then None
    else if IsUserEvent(tr, "delete.cut") then None
    else if IsUserEvent(tr, "input.paste") then Some(value)
    else None
  }

  /** The field's value after a history of transactions, each paired with
      the comments found in its cut. */
  function CutCommentsRun<C>(steps: seq<(Transaction, seq<C>)>): seq<C> {
    if steps == [] then CutCommentsCreate()
    else
      var last := steps[|steps| - 1];
      CutCommentsUpdate(CutCommentsRun(steps[..|steps| - 1]), last.0, last.1)
  }

  /** A history without cuts or pastes leaves the field empty. */
  lemma {:induction false} CutCommentsQuiet<C>(steps: seq<(Transaction, seq<C>)>)
    requires forall j :: 0 <= j < |steps| ==> !Cuts(steps[j].0) && !Pastes(steps[j].0)
    ensures CutCommentsRun(steps) == []
  {
    if steps != [] {
      CutCommentsQuiet(steps[..|steps| - 1]);
    }
  }

  /** The field holds the comments of the last cut, as long as no paste
      came after it. */
  lemma {:induction false} CutCommentsHoldsLastCut<C>(steps: seq<(Transaction, seq<C>)>, i: nat)
    requires i < |steps| && Cuts(steps[i].0)
    requires forall j :: i < j < |steps| ==> !Cuts(steps[j].0) && !Pastes(steps[j].0)
    ensures CutCommentsRun(steps) == steps[i].1
  {
    if i < |steps| - 1 {
      CutCommentsHoldsLastCut(steps[..|steps| - 1], i);
    }
  }

  /** After a paste, and until the next cut, the field is empty. */
  lemma {:induction false} CutCommentsEmptyAfterPaste<C>(steps: seq<(Transaction, seq<C>)>, i: nat)
    requires i < |steps| && Pastes(steps[i].0)
    requires forall j :: i < j < |steps| ==> !Cuts(steps[j].0) && !Pastes(steps[j].0)
    ensures CutCommentsRun(steps) == []
  {
    if i < |steps| - 1 {
      CutCommentsEmptyAfterPaste(steps[..|steps| - 1], i);
    }
  }

  /** A paste after a cut, with no cut or paste in between, hands the cut's
      comments to the paste restorer. */
  lemma PasteRestoresLastCut<C>(steps: seq<(Transaction, seq<C>)>, i: nat, paste: Transaction)
    requires i < |steps| && Cuts(steps[i].0)
    requires forall j :: i < j < |steps| ==> !Cuts(steps[j].0) && !Pastes(steps[j].0)
    requires Pastes(paste)
    ensures PasteRestores(CutCommentsRun(steps), paste) == Some(steps[i].1)
  {
  }

  /** A paste with no cut before it hands nothing to restore. */
  lemma PasteWithoutCutRestoresNothing<C>(steps: seq<(Transaction, seq<C>)>, paste: Transaction)
    requires forall j :: 0 <= j < |steps| ==> !Cuts(steps[j].0) && !Pastes(steps[j].0)
    requires Pastes(paste)
    ensures PasteRestores(CutCommentsRun(steps), paste) == Some([])
  {
  }

  /** The effects to apply when the transaction is undone: one restore
      effect carrying the comments the change detached, if there were any. */
  function InvertedEffects(tr: Transaction, detached: seq<Range<DetachedComment>>): (r: seq<Effect>)
    ensures |r| <= 1
    ensures |r| == 1 <==> LocalEdit(tr) && |detached| > 0
    ensures |r| == 1 ==> r[0] == RestoreDetachedComments(detached)
  {
    if tr.docChanged && !tr.remote && |detached| != 0 then
      [RestoreDetachedComments(detached)]
    else
      []
  }

  /** The comments of the first restore effect among `effects`. */
  function FirstRestore(effects: seq<Effect>): (r: Option<seq<Range<DetachedComment>>>)
    ensures r.None? <==> forall k :: 0 <= k < |effects| ==> !effects[k].RestoreDetachedComments?
    ensures r.Some? ==> exists k :: (0 <= k < |effects|
      && effects[k] == RestoreDetachedComments(r.value)
      && forall j :: 0 <= j < k ==> !effects[j].RestoreDetachedComments?)
  {
    if effects == [] then None
    else if effects[0].RestoreDetachedComments? then Some(effects[0].comments)
    else
      var rest := FirstRestore(effects[1..]);
      assert rest.Some? ==> exists k :: (1 <= k < |effects|
        && effects[k] == RestoreDetachedComments(rest.value)
        && forall j :: 1 <= j < k ==> !effects[j].RestoreDetachedComments?) by {
        if rest.Some? {
          var k :| 0 <= k < |effects[1..]|
            && effects[1..][k] == RestoreDetachedComments(rest.value)
            && forall j :: 0 <= j < k ==> !effects[1..][j].RestoreDetachedComments?;
          assert effects[k + 1] == effects[1..][k];
          forall j | 1 <= j < k + 1 ensures !effects[j].RestoreDetachedComments? {
            assert effects[j] == effects[1..][j - 1];
          }
        }
      }
      rest
  }

  /** The transaction extender's answer: the comments it sends back to the
      shared document, and the effects of the spec it returns, which the
      toolkit merges into the same transaction. */
  datatype Extension = Extension(restored: seq<Range<DetachedComment>>, effects: seq<Effect>)

  function ClearChangeMarkers(): seq<Effect> {
    [ClearChanges]
  }

  function BuildChangeMarkers(): seq<Effect> {
    [BuildChanges]
  }

  /** A transaction carrying a restore effect restores the first such
      effect's comments and asks for the change markers to be rebuilt. */
  function TransactionExtender(tr: Transaction): (r: Option<Extension>)
    ensures r.Some? <==> exists k :: 0 <= k < |tr.effects| && tr.effects[k].RestoreDetachedComments?
    ensures r.Some? ==> r.value.effects == [BuildChanges]
    ensures r.Some? ==> FirstRestore(tr.effects) == Some(r.value.restored)
  {
    match FirstRestore(tr.effects)
    case None => None
    case Some(comments) => Some(Extension(comments, BuildChangeMarkers()))
  }

  /** The transaction as dispatched: the extender's effects, if any, are
      appended to its own. */
  function ExtendTransaction(tr: Transaction): (r: Transaction)
    ensures r.changes == tr.changes
    ensures |r.effects| >= |tr.effects| && r.effects[..|tr.effects|] == tr.effects
    ensures FirstRestore(tr.effects).Some? <==> |r.effects| > |tr.effects|
    ensures FirstRestore(tr.effects).None? ==> r == tr
    ensures FirstRestore(tr.effects).Some? ==> r == tr.(effects := tr.effects + BuildChangeMarkers())
  {
    match TransactionExtender(tr)
    case None => tr
    case Some(ext) => tr.(effects := tr.effects + ext.effects)
  }

  function MapRange<V>(r: Range<V>, m: Mapping): Range<V> {
    Range(m.mapPos(r.from), m.mapPos(r.to), r.value)
  }

  /** The toolkit's mappings never move a later position before an earlier
      one. */
  ghost predicate Monotone(m: Mapping) {
    forall a: int, b: int :: a <= b ==> m.mapPos(a) <= m.mapPos(b)
  }

  /** Every range starts no later than it ends. */
  predicate Ordered<V>(rs: seq<Range<V>>) {
    forall k :: 0 <= k < |rs| ==> rs[k].from <= rs[k].to
  }

  /** Maps every range of a set through a document change: a zero-width
      range stays zero-width, and a monotone mapping keeps every range
      ordered. */
  function MapRanges<V>(rs: seq<Range<V>>, m: Mapping): (r: seq<Range<V>>)
    ensures |r| == |rs|
    ensures forall k :: 0 <= k < |rs| && rs[k].from == rs[k].to ==> r[k].from == r[k].to
    ensures Monotone(m) && Ordered(rs) ==> Ordered(r)
  {
    seq(|rs|, k requires 0 <= k < |rs| => MapRange(rs[k], m))
  }

  /** Both ends of the range lie within the document the mapping applies to. */
  predicate InDocument<V>(r: Range<V>, m: Mapping) {
    r.from <= m.length && r.to <= m.length
  }

  function KeepInDocument<V(!new)>(rs: seq<Range<V>>, m: Mapping): (r: seq<Range<V>>)
    ensures |r| <= |rs|
    ensures forall x :: x in r <==> x in rs && InDocument(x, m)
  {
    if rs == [] then []
    else
      var rest := KeepInDocument(rs[1..], m);
      assert forall x :: x in rs <==> x == rs[0] || x in rs[1..];
      if InDocument(rs[0], m) then [rs[0]] + rest else rest
  }

  /** The filter works range by range: filtering a concatenation filters
      each part in turn, so order and repeats are kept. */
  lemma {:induction false} KeepInDocumentAppend<V(!new)>(a: seq<Range<V>>, b: seq<Range<V>>, m: Mapping)
    ensures KeepInDocument(a + b, m) == KeepInDocument(a, m) + KeepInDocument(b, m)
  {
    if a == [] {
      assert a + b == b;
    } else {
      assert (a + b)[0] == a[0];
      assert (a + b)[1..] == a[1..] + b;
      KeepInDocumentAppend(a[1..], b, m);
    }
  }

  /** One range is kept exactly when it lies within the document. */
  lemma KeepInDocumentSingle<V(!new)>(x: Range<V>, m: Mapping)
    ensures KeepInDocument([x], m) == if InDocument(x, m) then [x] else []
  {
  }

  /** Maps a restore effect's comments through a change: comments reaching
      past the end of the document before the change (the mapping's length)
      are dropped, the rest mapped. */
  function MapRestoreEffect(comments: seq<Range<DetachedComment>>, m: Mapping)
    : (r: seq<Range<DetachedComment>>)
    ensures |r| <= |comments|
    ensures forall x :: x in r <==> exists y :: y in comments && InDocument(y, m) && x == MapRange(y, m)
    ensures r == MapRanges(KeepInDocument(comments, m), m)
  {
    var kept := KeepInDocument(comments, m);
    var r := MapRanges(kept, m);
    assert forall x :: x in r ==> exists y :: y in kept && x == MapRange(y, m) by {
      forall x | x in r ensures exists y :: y in kept && x == MapRange(y, m) {
        var k :| 0 <= k < |r| && r[k] == x;
        assert kept[k] in kept;
      }
    }
    assert forall y :: y in kept ==> MapRange(y, m) in r by {
      forall y | y in kept ensures MapRange(y, m) in r {
        var k :| 0 <= k < |kept| && kept[k] == y;
        assert r[k] == MapRange(y, m);
      }
    }
    r
  }

  /** Effects that replace the whole decoration set. */
  predicate IsMarkerEffect(e: Effect) {
    e.ClearChanges? || e.BuildChanges?
  }

  /** One effect's action on the plugin's decoration set. */
  function ApplyEffect(d: seq<Range<Deco>>, e: Effect, doc: DocumentContainer): seq<Range<Deco>> {
    match e
    case ClearChanges => []
    case BuildChanges => BuildChangeDecorations(doc, None)
    case _ => d
  }

  /** The transaction's effects applied in order. */
  function ApplyEffects(d: seq<Range<Deco>>, effects: seq<Effect>, doc: DocumentContainer): seq<Range<Deco>> {
    if effects == [] then d
    else ApplyEffect(ApplyEffects(d, effects[..|effects| - 1], doc), effects[|effects| - 1], doc)
  }

  /** The decoration set after one transaction: mapped through its changes,
      then its effects applied. */
  function UpdateTransaction(d: seq<Range<Deco>>, tr: Transaction, doc: DocumentContainer): seq<Range<Deco>> {
    ApplyEffects(MapRanges(d, tr.changes), tr.effects, doc)
  }

  /** The decoration set after a batch of transactions, one after the other. */
  function UpdateAll(d: seq<Range<Deco>>, trs: seq<Transaction>, doc: DocumentContainer): seq<Range<Deco>> {
    if trs == [] then d
    else UpdateTransaction(UpdateAll(d, trs[..|trs| - 1], doc), trs[|trs| - 1], doc)
  }

  /** Without clear or build effects, the effects leave the set as it is. */
  lemma {:induction false} EffectsWithoutMarkers(d: seq<Range<Deco>>, effects: seq<Effect>, doc: DocumentContainer)
    requires forall j :: 0 <= j < |effects| ==> !IsMarkerEffect(effects[j])
    ensures ApplyEffects(d, effects, doc) == d
  {
    if effects != [] {
      EffectsWithoutMarkers(d, effects[..|effects| - 1], doc);
    }
  }

  /** The last clear or build effect decides the set, whatever came before. */
  lemma {:induction false} LastMarkerWins(d: seq<Range<Deco>>, effects: seq<Effect>, doc: DocumentContainer, i: nat)
    requires i < |effects| && IsMarkerEffect(effects[i])
    requires forall j :: i < j < |effects| ==> !IsMarkerEffect(effects[j])
    ensures effects[i].ClearChanges? ==> ApplyEffects(d, effects, doc) == []
    ensures effects[i].BuildChanges? ==> ApplyEffects(d, effects, doc) == BuildChangeDecorations(doc, None)
  {
    if i < |effects| - 1 {
      LastMarkerWins(d, effects[..|effects| - 1], doc, i);
    }
  }

  /** A transaction without clear or build effects only maps the set. */
  lemma TransactionOnlyMaps(d: seq<Range<Deco>>, tr: Transaction, doc: DocumentContainer)
    requires forall j :: 0 <= j < |tr.effects| ==> !IsMarkerEffect(tr.effects[j])
    ensures UpdateTransaction(d, tr, doc) == MapRanges(d, tr.changes)
  {
    EffectsWithoutMarkers(MapRanges(d, tr.changes), tr.effects, doc);
  }

  /** Applying effects keeps every range ordered: clear gives the empty set
      and build a well-formed one. */
  lemma {:induction false} EffectsKeepOrdered(d: seq<Range<Deco>>, effects: seq<Effect>, doc: DocumentContainer)
    requires Ordered(d)
    ensures Ordered(ApplyEffects(d, effects, doc))
  {
    if effects != [] {
      EffectsKeepOrdered(d, effects[..|effects| - 1], doc);
    }
  }

  /** Under a monotone mapping, the plugin's update keeps every decoration
      ordered. */
  lemma UpdateKeepsOrdered(d: seq<Range<Deco>>, tr: Transaction, doc: DocumentContainer)
    requires Monotone(tr.changes) && Ordered(d)
    ensures Ordered(UpdateTransaction(d, tr, doc))
  {
    EffectsKeepOrdered(MapRanges(d, tr.changes), tr.effects, doc);
  }

  /** A transaction carrying a restore effect, once extended, ends with a
      build request, so the plugin rebuilds the decorations from the
      document whatever the transaction's other effects. */
  lemma {:induction false} ExtendedRestoreRebuilds(d: seq<Range<Deco>>, tr: Transaction, doc: DocumentContainer)
    requires exists k :: 0 <= k < |tr.effects| && tr.effects[k].RestoreDetachedComments?
    ensures UpdateTransaction(d, ExtendTransaction(tr), doc) == BuildChangeDecorations(doc, None)
  {
  }

  /** Undoing an edit that detached comments: the undo transaction carries
      the restore effect, the extender restores exactly those comments, and
      the build request it merges into the same transaction rebuilds the
      decorations from the document. */
  lemma UndoRebuildsMarkers(edit: Transaction, detached: seq<Range<DetachedComment>>,
                            undo: Transaction, d: seq<Range<Deco>>, doc: DocumentContainer)
    requires LocalEdit(edit) && |detached| > 0
    requires undo.effects == InvertedEffects(edit, detached)
    ensures TransactionExtender(undo).Some?
    ensures TransactionExtender(undo).value.restored == detached
    ensures UpdateTransaction(d, ExtendTransaction(undo), doc) == BuildChangeDecorations(doc, None)
  {
  }

  /** A transaction carrying the clear request, and no other effect, empties
      the decoration set. */
  lemma ClearMarkersEmpties(d: seq<Range<Deco>>, tr: Transaction, doc: DocumentContainer)
    requires tr.effects == ClearChangeMarkers()
    ensures UpdateTransaction(d, tr, doc) == []
  {
  }

  /** The plugin's initial decoration set. Under the review-panel redesign
      it is built from the panel's ranges and threads when both are present;
      otherwise it is built from the document unless threads are loading. */
  function PluginInit(doc: DocumentContainer, reviewPanelRedesign: bool, loadingThreads: bool,
                      ranges: Option<RangeLists>, threads: Option<map<ThreadId, Thread>>)
    : (r: seq<Range<Deco>>)
    ensures WellFormed(r)
    ensures r != [] ==> (reviewPanelRedesign ==> ranges.Some? && threads.Some?)
    ensures r != [] ==> (!reviewPanelRedesign ==> !loadingThreads)
    ensures reviewPanelRedesign && ranges.Some? && threads.Some? ==>
      r == BuildChangeDecorations(doc, Some(RangesData(ranges.value, threads.value)))
    ensures !reviewPanelRedesign && !loadingThreads ==> r == BuildChangeDecorations(doc, None)
  {
    if reviewPanelRedesign then
      if ranges.Some? && threads.Some? then
        BuildChangeDecorations(doc, Some(RangesData(ranges.value, threads.value)))
      else []
    else if !loadingThreads then
      BuildChangeDecorations(doc, None)
    else []
  }

  /** The plugin's update, written as its loops: each transaction maps the
      set through its changes, then each clear or build effect replaces it. */
  method PluginUpdate(decorations: seq<Range<Deco>>, transactions: seq<Transaction>, doc: DocumentContainer)
    returns (r: seq<Range<Deco>>)
    ensures r == UpdateAll(decorations, transactions, doc)
  {
    r := decorations;
    var t := 0;
    while t < |transactions|
      invariant 0 <= t <= |transactions|
      invariant r == UpdateAll(decorations, transactions[..t], doc)
    {
      var tr := transactions[t];
      var mapped := MapRanges(r, tr.changes);
      r := mapped;
      var e := 0;
      while e < |tr.effects|
        invariant 0 <= e <= |tr.effects|
        invariant r == ApplyEffects(mapped, tr.effects[..e], doc)
      {
        var effect := tr.effects[e];
        if effect.ClearChanges? {
          r := [];
        } else if effect.BuildChanges? {
          r := BuildChangeDecorations(doc, None);
        }
        assert tr.effects[..e + 1][..e] == tr.effects[..e];
        e := e + 1;
      }
      assert tr.effects[..e] == tr.effects;
      assert transactions[..t + 1][..t] == transactions[..t];
      t := t + 1;
    }
    assert transactions[..t] == transactions;
  }
}
