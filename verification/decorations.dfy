/** Decorations for tracked changes and comments in the source editor.

    A tracked change is an insertion, a deletion or a comment at a document
    offset. Each one is turned into editor decorations: a deletion into two
    zero-width widgets, an insertion or a comment into a callout widget plus a
    mark over the covered text. The editor toolkit's decoration objects are
    modelled as plain records `Range(from, to, value)`. */
module TrackChanges {
  import opened Wrappers

  type ThreadId = string

  /** A tracked operation at offset `p`: the insertion of `i`, the deletion of
      `d`, or a comment over the text `c` that belongs to the thread `t`. */
  datatype Op =
    | Insert(p: int, i: string)
    | Delete(p: int, d: string)
    | Comment(p: int, c: string, t: ThreadId)

  datatype Metadata = Metadata(userId: string, ts: string)

  /** A tracked change or comment as the ranges tracker stores it. */
  datatype Change = Change(id: string, metadata: Option<Metadata>, op: Op)

  datatype Thread = Thread(resolved: bool)

  /** The two lists the ranges tracker keeps. */
  datatype RangeLists = RangeLists(changes: seq<Change>, comments: seq<Change>)

  /** The document's ranges tracker. `resolvedThreadIds` holds the ids whose
      entry is truthy; it is None when the tracker has no such table, and
      reading an entry of it then throws. */
  datatype Tracker = Tracker(lists: RangeLists, resolvedThreadIds: Option<set<ThreadId>>)

  /** The part of the open document read here: its ranges tracker, if any. */
  datatype DocumentContainer = DocumentContainer(ranges: Option<Tracker>)

  /** The ranges and threads handed over by the redesigned review panel. */
  datatype RangesData = RangesData(ranges: RangeLists, threads: map<ThreadId, Thread>)

  datatype WidgetKind = Callout | DeletedMarker

  /** A widget (with its `side`) or a mark over text. */
  datatype DecoKind = Widget(widget: WidgetKind, side: int) | Mark

  /** The specification attached to one decoration. */
  datatype Deco = Deco(kind: DecoKind, opType: char, id: string, metadata: Option<Metadata>)

  /** A value placed over the document positions `from` to `to`. */
  datatype Range<V> = Range(from: int, to: int, value: V)

  /** Why building the decorations of one change threw. */
  datatype Error = ResolvedThreadsUnreadable

  /** The one-letter operation type: 'i', 'd' or 'c'. */
  function OpType(op: Op): char {
    match op
    case Insert(_, _) => 'i'
    case Delete(_, _) => 'd'
    case Comment(_, _, _) => 'c'
  }

  /** The document text an insertion or a comment spans; a deletion spans none. */
  function CoveredText(op: Op): string {
    match op
    case Insert(_, i) => i
    case Delete(_, _) => ""
    case Comment(_, c, _) => c
  }

  /** The length of a string as the editor counts it, in UTF-16 code units:
      a character outside the Basic Multilingual Plane takes two. */
  function Utf16Length(s: string): (n: nat)
    ensures n >= |s|
    ensures n == 0 <==> s == ""
  {
    if s == [] then 0
    else (if s[0] as int >= 0x1_0000 then 2 else 1) + Utf16Length(s[1..])
  }

  /** The editor length of a concatenation is the sum of the parts'. */
  lemma {:induction false} Utf16LengthAppend(a: string, b: string)
    ensures Utf16Length(a + b) == Utf16Length(a) + Utf16Length(b)
  {
    if a == [] {
      assert a + b == b;
    } else {
      assert (a + b)[0] == a[0];
      assert (a + b)[1..] == a[1..] + b;
      Utf16LengthAppend(a[1..], b);
    }
  }

  /** Whether `resolvedThreadIds` can be read from the document's tracker. */
  predicate ResolvedReadable(doc: DocumentContainer) {
    doc.ranges.Some? && doc.ranges.value.resolvedThreadIds.Some?
  }

  function ResolvedThreads(doc: DocumentContainer): set<ThreadId>
    requires ResolvedReadable(doc)
  {
    doc.ranges.value.resolvedThreadIds.value
  }

  /** A comment thread is hidden when the tracker lists it as resolved or,
      given panel data, when the panel does not know it or knows it resolved. */
  predicate ThreadHidden(t: ThreadId, doc: DocumentContainer, data: Option<RangesData>)
    requires ResolvedReadable(doc)
  {
    || t in ResolvedThreads(doc)
    || (data.Some? && (t !in data.value.threads || data.value.threads[t].resolved))
  }

  /** A widget of the given kind and side, of zero width at `p`. */
  predicate WidgetAt(r: Range<Deco>, w: WidgetKind, side: int, p: int) {
    r.from == p && r.to == p && r.value.kind == Widget(w, side)
  }

  /** Widgets have zero width and marks are never empty. */
  predicate WellFormed(rs: seq<Range<Deco>>) {
    forall k :: 0 <= k < |rs| ==>
      && (rs[k].value.kind.Widget? ==> rs[k].from == rs[k].to)
      && (rs[k].value.kind.Mark? ==> rs[k].from < rs[k].to)
  }

  /** Every decoration is labelled with the change's id, metadata and type. */
  predicate Labelled(rs: seq<Range<Deco>>, change: Change) {
    forall k :: 0 <= k < |rs| ==>
      && rs[k].value.id == change.id
      && rs[k].value.metadata == change.metadata
      && rs[k].value.opType == OpType(change.op)
  }

  /** The decorations of one change, or the error its construction throws. */
  function CreateChangeRange(change: Change, doc: DocumentContainer, data: Option<RangesData>)
    : (r: Result<seq<Range<Deco>>, Error>)
    ensures r.Failure? <==> change.op.Comment? && !ResolvedReadable(doc)
    ensures r.Success? ==> WellFormed(r.value) && Labelled(r.value, change)
    ensures change.op.Delete? ==>
      && r.Success? && |r.value| == 2
      && WidgetAt(r.value[0], Callout, 1, change.op.p)
      && WidgetAt(r.value[1], DeletedMarker, 1, change.op.p)
    ensures r.Success? && !change.op.Delete? ==>
      (r.value == [] <==> (change.op.Comment? && ThreadHidden(change.op.t, doc, data)) || CoveredText(change.op) == "")
    ensures r.Success? && !change.op.Delete? && r.value != [] ==>
      && |r.value| == 2
      && WidgetAt(r.value[0], Callout, 0, change.op.p)
      && r.value[1].value.kind == Mark
      && r.value[1].from == change.op.p
      && r.value[1].to == change.op.p + Utf16Length(CoveredText(change.op))
  {
    var from := change.op.p;
    if change.op.Delete? then
      var opType := 'd';
      Success([
        Range(from, from, Deco(Widget(Callout, 1), opType, change.id, change.metadata)),
        Range(from, from, Deco(Widget(DeletedMarker, 1), opType, change.id, change.metadata))
      ])
    else if change.op.Comment? && !ResolvedReadable(doc) then
      Failure(ResolvedThreadsUnreadable)
    else if change.op.Comment? && change.op.t in ResolvedThreads(doc) then
      Success([])
    else if change.op.Comment? && data.Some?
         && (change.op.t !in data.value.threads || data.value.threads[change.op.t].resolved) then
      Success([])
    else
      var opType := if change.op.Comment? then 'c' else 'i';
      var changedText := if change.op.Comment? then change.op.c else change.op.i;
      var to := from + Utf16Length(changedText);
      if from == to then
        Success([])
      else
        Success([
          Range(from, from, Deco(Widget(Callout, 0), opType, change.id, change.metadata)),
          Range(from, to, Deco(Mark, opType, change.id, change.metadata))
        ])
  }

  /** A character outside the Basic Multilingual Plane is two editor
      positions wide, so an insertion of one emoji at 5 is marked over [5, 7). */
  lemma AstralCharacterMark(doc: DocumentContainer)
    ensures var r := CreateChangeRange(Change("x", None, Insert(5, "\U{1F600}")), doc, None);
      r.Success? && |r.value| == 2 && r.value[1].from == 5 && r.value[1].to == 7
  {
  }

  /** The decorations of each change in turn; a change whose construction
      throws contributes nothing. */
  function CollectRanges(changes: seq<Change>, doc: DocumentContainer, data: Option<RangesData>)
    : (r: seq<Range<Deco>>)
    ensures WellFormed(r)
    ensures |r| <= 2 * |changes|
    ensures forall k :: 0 <= k < |r| ==>
      exists j :: 0 <= j < |changes| && r[k].value.id == changes[j].id
  {
    if changes == [] then []
    else
      var head := CreateChangeRange(changes[0], doc, data).GetOr([]);
      var tail := CollectRanges(changes[1..], doc, data);
      assert forall k :: 0 <= k < |tail| ==>
        exists j :: 1 <= j < |changes| && tail[k].value.id == changes[j].id by {
        forall k | 0 <= k < |tail|
          ensures exists j :: 1 <= j < |changes| && tail[k].value.id == changes[j].id
        {
          var j' :| 0 <= j' < |changes[1..]| && tail[k].value.id == changes[1..][j'].id;
          assert changes[1..][j'] == changes[j' + 1];
        }
      }
      head + tail
  }

  /** The change lists that decorations are built from: the panel's when
      given, otherwise the document tracker's (None when it has none). */
  function SourceLists(doc: DocumentContainer, data: Option<RangesData>): Option<RangeLists> {
    if data.Some? then Some(data.value.ranges)
    else if doc.ranges.Some? then Some(doc.ranges.value.lists)
    else None
  }

  /** All decorations for the document: nothing without ranges, otherwise the
      tracked changes' decorations followed by the comments'. */
  function BuildChangeDecorations(doc: DocumentContainer, data: Option<RangesData>)
    : (r: seq<Range<Deco>>)
    ensures SourceLists(doc, data).None? ==> r == []
    ensures WellFormed(r)
    ensures SourceLists(doc, data).Some? ==>
      |r| <= 2 * (|SourceLists(doc, data).value.changes| + |SourceLists(doc, data).value.comments|)
  {
    match SourceLists(doc, data)
    case None => []
    case Some(lists) => CollectRanges(lists.changes + lists.comments, doc, data)
  }

  /** Collecting over a concatenation collects each part in turn. */
  lemma {:induction false} CollectAppend(a: seq<Change>, b: seq<Change>, doc: DocumentContainer, data: Option<RangesData>)
    ensures CollectRanges(a + b, doc, data) == CollectRanges(a, doc, data) + CollectRanges(b, doc, data)
  {
    if a == [] {
      assert a + b == b;
    } else {
      assert (a + b)[0] == a[0];
      assert (a + b)[1..] == a[1..] + b;
      CollectAppend(a[1..], b, doc, data);
    }
  }

  /** Every tracked change is decorated before every comment. */
  lemma ChangesBeforeComments(doc: DocumentContainer, data: Option<RangesData>)
    requires SourceLists(doc, data).Some?
    ensures var lists := SourceLists(doc, data).value;
      BuildChangeDecorations(doc, data)
        == CollectRanges(lists.changes, doc, data) + CollectRanges(lists.comments, doc, data)
  {
    var lists := SourceLists(doc, data).value;
    CollectAppend(lists.changes, lists.comments, doc, data);
  }

  /** A change whose construction throws is skipped; the changes around it
      keep their decorations, in order. */
  lemma SkipsInvalidChange(a: seq<Change>, c: Change, b: seq<Change>, doc: DocumentContainer, data: Option<RangesData>)
    requires CreateChangeRange(c, doc, data).Failure?
    ensures CollectRanges(a + [c] + b, doc, data) == CollectRanges(a, doc, data) + CollectRanges(b, doc, data)
  {
    CollectAppend(a + [c], b, doc, data);
    CollectAppend(a, [c], doc, data);
    CollectSingle(c, doc, data);
    assert CollectRanges(a + [c], doc, data) == CollectRanges(a, doc, data);
  }

  /** A single change contributes exactly its own decorations. */
  lemma CollectSingle(c: Change, doc: DocumentContainer, data: Option<RangesData>)
    ensures CollectRanges([c], doc, data) == CreateChangeRange(c, doc, data).GetOr([])
  {
  }
}
