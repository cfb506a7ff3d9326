/**
  The bridge between the reader and its extensions: document generations, handles scoped to them, and
  snapshots published under rising revisions. Counters are unsigned 64-bit and refuse to wrap.
*/
module CapabilityBridges {
  import opened Wrappers

  const U32_MAX := 0xFFFF_FFFF
  const U64_MAX := 0xFFFF_FFFF_FFFF_FFFF

  datatype DocumentHandle = DocumentHandle(generation: nat, id: nat)
  datatype PageHandle = PageHandle(generation: nat, id: nat)
  datatype OverlayHandle = OverlayHandle(generation: nat, id: nat)

  datatype Error =
    | NoActiveDocument
    | StaleGeneration(expected: nat, actual: nat)
    | ResourceNotFound(id: nat)
    | PageOutOfBounds(page: nat, pageCount: nat)
    | ContractViolation
    | ReversedRange
    | StaleRevision
    | LimitExceeded
    | Exhausted

  /** Content of a snapshot; `sound` says whether it meets the bounds of the capability contract. */
  datatype Body = Body(content: seq<int>, sound: bool)

  datatype PageRef = PageRef(page: PageHandle, index: nat)

  datatype Snapshot =
    | Document(document: DocumentHandle, revision: nat, body: Body)
    | Page(document: DocumentHandle, at: PageRef, revision: nat, body: Body)
    | Outline(document: DocumentHandle, revision: nat, body: Body)
    | Links(at: PageRef, revision: nat, body: Body)
    | Text(at: PageRef, revision: nat, whole: bool, body: Body)
    | Selection(document: DocumentHandle, pages: seq<PageRef>, revision: nat, body: Body)
    | Viewport(document: DocumentHandle, pages: seq<PageRef>, revision: nat, body: Body)

  /** Where a snapshot is kept: one place per kind, or one per kind and page. */
  datatype Slot =
    | DocumentSlot | PageSlot(page: nat) | OutlineSlot | LinksSlot(page: nat) | TextSlot(page: nat)
    | SelectionSlot | ViewportSlot

  function SlotOf(s: Snapshot): Slot {
    match s
    case Document(_, _, _) => DocumentSlot
    case Page(_, at, _, _) => PageSlot(at.index)
    case Outline(_, _, _) => OutlineSlot
    case Links(at, _, _) => LinksSlot(at.index)
    case Text(at, _, _, _) => TextSlot(at.index)
    case Selection(_, _, _, _) => SelectionSlot
    case Viewport(_, _, _, _) => ViewportSlot
  }

  function WithRevision(s: Snapshot, revision: nat): Snapshot { s.(revision := revision) }

  datatype Receipt = Receipt(document: DocumentHandle, viewportRevision: nat)

  datatype ActiveDocument = ActiveDocument(
    document: DocumentHandle,
    pageCount: nat,
    slots: map<Slot, Snapshot>,
    nextSnapshotRevision: nat,
    nextViewportRevision: nat,
    pendingNavigation: Option<Receipt>,
    overlays: Option<nat>,
    nextOverlayId: nat)

  function Opened(document: DocumentHandle, pageCount: nat): ActiveDocument {
    ActiveDocument(document, pageCount, map[], 2, 0, None, None, pageCount + 2)
  }

  // ---- Handles ----

  function PageHandleOf(a: ActiveDocument, page: nat): Result<PageHandle, Error> {
    if page >= a.pageCount then Err(PageOutOfBounds(page, a.pageCount))
    else Ok(PageHandle(a.document.generation, page + 2))
  }

  function RequirePage(a: ActiveDocument, at: PageRef): Option<Error> {
    if at.page.generation != a.document.generation
    then Some(StaleGeneration(a.document.generation, at.page.generation))
    else match PageHandleOf(a, at.index)
      case Err(e) => Some(e)
      case Ok(expected) => if at.page == expected then None else Some(ResourceNotFound(at.page.id))
  }

  function PageIndexOf(a: ActiveDocument, h: PageHandle): Result<nat, Error> {
    if h.generation != a.document.generation then Err(StaleGeneration(a.document.generation, h.generation))
    else if h.id < 2 || h.id - 2 > U32_MAX then Err(ResourceNotFound(h.id))
    else match RequirePage(a, PageRef(h, h.id - 2))
      case Some(e) => Err(e)
      case None => Ok(h.id - 2)
  }

  function RequireDocument(a: ActiveDocument, d: DocumentHandle): Option<Error> {
    if d.generation != a.document.generation then Some(StaleGeneration(a.document.generation, d.generation))
    else if d == a.document then None
    else Some(ResourceNotFound(d.id))
  }

  /** `PageIndexOf` undoes `PageHandleOf`, on exactly the handles that were issued, and says of others what they lack. */
  lemma PageHandlesInvert(a: ActiveDocument, h: PageHandle, page: nat)
    requires a.pageCount <= U32_MAX
    ensures PageIndexOf(a, h) == Ok(page) <==> PageHandleOf(a, page) == Ok(h)
    ensures h.generation == a.document.generation && a.pageCount + 2 <= h.id ==>
              PageIndexOf(a, h) == Err(if h.id <= U32_MAX + 2 then PageOutOfBounds(h.id - 2, a.pageCount)
                                       else ResourceNotFound(h.id))
  {
  }

  function RequirePages(a: ActiveDocument, pages: seq<PageRef>): Option<Error> {
    if pages == [] then None
    else match RequirePage(a, pages[0])
      case Some(e) => Some(e)
      case None => RequirePages(a, pages[1..])
  }

  // ---- Publication ----

  /** The handle a live snapshot speaks for; page-scoped kinds are checked against the pages. */
  function SnapshotDocument(a: ActiveDocument, s: Snapshot): Result<DocumentHandle, Error> {
    match s
    case Links(at, _, _) => (match PageIndexOf(a, at.page) case Ok(_) => Ok(a.document) case Err(e) => Err(e))
    case Text(at, _, _, _) => (match PageIndexOf(a, at.page) case Ok(_) => Ok(a.document) case Err(e) => Err(e))
    case _ => Ok(s.document)
  }

  /** Everything checked before the revision: contract, handles and shape. */
  function Refusal(a: ActiveDocument, s: Snapshot): Option<Error> {
    if !s.body.sound then Some(ContractViolation)
    else match s
      case Document(d, _, _) => RequireDocument(a, d)
      case Page(d, at, _, _) => (match RequireDocument(a, d) case Some(e) => Some(e) case None => RequirePage(a, at))
      case Outline(d, _, _) => RequireDocument(a, d)
      case Links(at, _, _) => RequirePage(a, at)
      case Text(at, _, whole, _) =>
        (match RequirePage(a, at) case Some(e) => Some(e) case None => if whole then None else Some(ReversedRange))
      case Selection(d, ps, _, _) =>
        (match RequireDocument(a, d) case Some(e) => Some(e) case None => RequirePages(a, ps))
      case Viewport(d, ps, _, _) =>
        (match RequireDocument(a, d) case Some(e) => Some(e) case None => RequirePages(a, ps))
  }

  predicate Newer(a: ActiveDocument, s: Snapshot) {
    SlotOf(s) in a.slots ==> a.slots[SlotOf(s)].revision < s.revision
  }

  function Max(x: nat, y: nat): nat { if x < y then y else x }

  function SaturatingNext(revision: nat): nat { if revision >= U64_MAX then U64_MAX else revision + 1 }

  function PublishInto(a: ActiveDocument, s: Snapshot): Result<ActiveDocument, Error> {
    match Refusal(a, s)
    case Some(e) => Err(e)
    case None =>
      if !Newer(a, s) then Err(StaleRevision)
      else Ok(a.(slots := a.slots[SlotOf(s) := s],
                 nextSnapshotRevision := Max(a.nextSnapshotRevision, SaturatingNext(s.revision)),
                 nextViewportRevision :=
                   if s.Viewport? then Max(a.nextViewportRevision, s.revision) else a.nextViewportRevision))
  }

  predicate Matches(a: ActiveDocument, s: Snapshot) {
    SlotOf(s) in a.slots && a.slots[SlotOf(s)] == WithRevision(s, a.slots[SlotOf(s)].revision)
  }

  // ---- What publication means ----

  /** Snapshots that are kept in one place: of one kind, and for page-scoped kinds of one page. */
  ghost predicate SharePlace(s: Snapshot, t: Snapshot) {
    match s
    case Document(_, _, _) => t.Document?
    case Page(_, at, _, _) => t.Page? && t.at.index == at.index
    case Outline(_, _, _) => t.Outline?
    case Links(at, _, _) => t.Links? && t.at.index == at.index
    case Text(at, _, _, _) => t.Text? && t.at.index == at.index
    case Selection(_, _, _, _) => t.Selection?
    case Viewport(_, _, _, _) => t.Viewport?
  }

  lemma SlotsSeparate(s: Snapshot, t: Snapshot)
    ensures SlotOf(s) == SlotOf(t) <==> SharePlace(s, t)
  {
  }

  /** The page reference was issued for the document: index and handle belong together. */
  ghost predicate Issued(a: ActiveDocument, at: PageRef) {
    at.index < a.pageCount && at.page == PageHandle(a.document.generation, at.index + 2)
  }

  /** Everything a snapshot names belongs to the document, and its content is sound; a text is the whole page. */
  ghost predicate Publishable(a: ActiveDocument, s: Snapshot) {
    && s.body.sound
    && (s.Links? || s.Text? || s.document == a.document)
    && (s.Page? || s.Links? || s.Text? ==> Issued(a, s.at))
    && (s.Selection? || s.Viewport? ==> forall i :: 0 <= i < |s.pages| ==> Issued(a, s.pages[i]))
    && (s.Text? ==> s.whole)
  }

  lemma {:induction false} PagesIssued(a: ActiveDocument, pages: seq<PageRef>)
    ensures RequirePages(a, pages) == None <==> forall i :: 0 <= i < |pages| ==> Issued(a, pages[i])
  {
    if pages != [] {
      PagesIssued(a, pages[1..]);
      assert forall i :: 0 < i < |pages| ==> pages[i] == pages[1..][i - 1];
    }
  }

  /** What is refused before the revision is looked at. */
  lemma RefusalMeans(a: ActiveDocument, s: Snapshot)
    ensures Refusal(a, s) == None <==> Publishable(a, s)
  {
    if s.Selection? || s.Viewport? {
      PagesIssued(a, s.pages);
    }
  }

  /** A live snapshot speaks for the document if it names it, or one of its pages. */
  ghost predicate Addressed(a: ActiveDocument, s: Snapshot) {
    if s.Links? || s.Text? then s.at.page.generation == a.document.generation && 2 <= s.at.page.id < a.pageCount + 2
    else s.document == a.document
  }

  lemma AddressedMeans(a: ActiveDocument, s: Snapshot)
    requires a.pageCount <= U32_MAX
    ensures SnapshotDocument(a, s) == Ok(a.document) <==> Addressed(a, s)
    ensures Publishable(a, s) ==> Addressed(a, s)
  {
  }

  /** The same content is stored already, under whatever revision. */
  ghost predicate Repeats(a: ActiveDocument, s: Snapshot) {
    SlotOf(s) in a.slots && a.slots[SlotOf(s)].(revision := 0) == s.(revision := 0)
  }

  lemma MatchesMeans(a: ActiveDocument, s: Snapshot)
    ensures Matches(a, s) <==> Repeats(a, s)
  {
    if SlotOf(s) in a.slots {
      var t := a.slots[SlotOf(s)];
      assert t.(revision := 0).(revision := t.revision) == t;
      assert s.(revision := 0).(revision := t.revision) == s.(revision := t.revision);
    }
  }

  // ---- What holds of an open document ----

  /** The live counter is above every stored revision, or spent. */
  ghost predicate Counted(a: ActiveDocument) {
    && 2 <= a.nextSnapshotRevision <= U64_MAX && a.nextViewportRevision <= U64_MAX
    && (forall k :: k in a.slots ==>
          && SlotOf(a.slots[k]) == k
          && a.slots[k].revision <= U64_MAX
          && (a.slots[k].revision < a.nextSnapshotRevision || a.nextSnapshotRevision == U64_MAX))
    && (ViewportSlot in a.slots ==> a.slots[ViewportSlot].revision <= a.nextViewportRevision)
    && a.pageCount <= U32_MAX
    && a.pageCount + 2 <= a.nextOverlayId <= U64_MAX
    && a.document.id == 1
  }

  lemma PublishKeepsCount(a: ActiveDocument, s: Snapshot)
    requires Counted(a) && s.revision <= U64_MAX && PublishInto(a, s).Ok?
    ensures Counted(PublishInto(a, s).value)
  {
  }

  /** A revision taken from the live counter is never stale. */
  lemma LiveRevisionIsNewer(a: ActiveDocument, s: Snapshot)
    requires Counted(a) && a.nextSnapshotRevision < U64_MAX
    ensures Newer(a, WithRevision(s, a.nextSnapshotRevision))
    ensures SlotOf(WithRevision(s, a.nextSnapshotRevision)) == SlotOf(s)
  {
    assert WithRevision(s, a.nextSnapshotRevision).revision == a.nextSnapshotRevision;
    match s case Document(_, _, _) => case _ =>
  }

  /** A revision changes nothing about what may be published, nor does the counter. */
  lemma StampedIsTheSame(a: ActiveDocument, b: ActiveDocument, s: Snapshot, revision: nat)
    requires b.document == a.document && b.pageCount == a.pageCount
    ensures Publishable(b, WithRevision(s, revision)) <==> Publishable(a, s)
  {
  }

  lemma HoldsContent(a: ActiveDocument, s: Snapshot, revision: nat)
    requires SlotOf(s) in a.slots && a.slots[SlotOf(s)] == WithRevision(s, revision)
    ensures Repeats(a, s)
  {
  }

  lemma {:induction false} PagesNotStale(a: ActiveDocument, pages: seq<PageRef>)
    ensures RequirePages(a, pages) != Some(StaleRevision) && RequirePages(a, pages) != Some(Exhausted)
  {
    if pages != [] {
      PagesNotStale(a, pages[1..]);
    }
  }

  lemma RefusalIsNotStale(a: ActiveDocument, s: Snapshot)
    ensures Refusal(a, s) != Some(StaleRevision) && Refusal(a, s) != Some(Exhausted)
    ensures SnapshotDocument(a, s) != Err(StaleRevision) && SnapshotDocument(a, s) != Err(Exhausted)
  {
    if s.Selection? || s.Viewport? {
      PagesNotStale(a, s.pages);
    }
  }

  class CapabilityBridge {
    var nextGeneration: nat
    var active: Option<ActiveDocument>

    /** Generations whose document was closed or replaced. */
    ghost var retired: set<nat>
    /** Generations of the document handles handed out so far, in order. */
    ghost var issued: seq<nat>
    /** Revisions of the navigation receipts of the active document, and of its viewports, in order. */
    ghost var receipts: seq<nat>
    ghost var overlayIds: seq<nat>

    ghost predicate Valid()
      reads this
    {
      && 1 <= nextGeneration <= U64_MAX
      && (forall g :: g in retired ==> g < nextGeneration)
      && Rising(issued, nextGeneration)
      && (active.Some? ==> issued != [] && active.value.document.generation == issued[|issued| - 1])
      && (active.Some? ==>
            && Counted(active.value)
            && active.value.document.generation < nextGeneration
            && active.value.document.generation !in retired
            && Rising(receipts, active.value.nextViewportRevision + 1)
            && Rising(overlayIds, active.value.nextOverlayId)
            && (forall i :: 0 <= i < |overlayIds| ==> active.value.pageCount + 2 <= overlayIds[i]))
    }

    /** The only documents whose handles are honoured. */
    predicate Accepts(d: DocumentHandle)
      reads this
    {
      active.Some? && RequireDocument(active.value, d) == None
    }

    /** Handles of a retired generation are refused as stale, and so are its page handles. */
    lemma RetiredIsStale(d: DocumentHandle, h: PageHandle)
      requires Valid()
      ensures Accepts(d) ==> d.generation !in retired && d == active.value.document
      ensures d.generation in retired && active.Some? ==>
                RequireDocument(active.value, d) == Some(StaleGeneration(active.value.document.generation, d.generation))
      ensures h.generation in retired && active.Some? ==>
                PageIndexOf(active.value, h) == Err(StaleGeneration(active.value.document.generation, h.generation))
    {
    }

    /** Within a generation the document, its pages and its overlay sets have different ids. */
    lemma IdsNeverCollide(page: nat, i: nat)
      requires Valid() && active.Some? && page < active.value.pageCount && i < |overlayIds|
      ensures PageHandleOf(active.value, page).value.id != active.value.document.id
      ensures overlayIds[i] != active.value.document.id
      ensures overlayIds[i] != PageHandleOf(active.value, page).value.id
    {
    }

    constructor ()
      ensures Valid() && nextGeneration == 1 && active == None && retired == {} && issued == []
    {
      nextGeneration, active := 1, None;
      retired, issued, receipts, overlayIds := {}, [], [], [];
    }

    /** Retires the active document, if any, and drops everything kept for it. */
    method CloseDocument()
      requires Valid()
      modifies this`active, this`retired, this`receipts, this`overlayIds
      ensures Valid() && active == None
      ensures retired == old(retired) + old(ActiveGeneration())
    {
      retired := retired + ActiveGeneration();
      active, receipts, overlayIds := None, [], [];
    }

    ghost function ActiveGeneration(): set<nat>
      reads this
    {
      if active.Some? then {active.value.document.generation} else {}
    }

    method AllocateGeneration() returns (r: Result<nat, Error>)
      requires Valid()
      modifies this`nextGeneration
      ensures Valid()
      ensures Rising(issued, old(nextGeneration))
      ensures old(nextGeneration) < U64_MAX ==>
          r == Ok(old(nextGeneration)) && nextGeneration == old(nextGeneration) + 1
      ensures old(nextGeneration) == U64_MAX ==> r == Err(Exhausted) && nextGeneration == old(nextGeneration)
    {
      if nextGeneration == U64_MAX {
        return Err(Exhausted);
      }
      r := Ok(nextGeneration);
      nextGeneration := nextGeneration + 1;
    }

    /**
      Opens a document and seeds its metadata, pages, outline and links at revision one. The new
      document appears whole or not at all; a failure spends the generation and leaves the old one active.
    */
    method BeginLiveDocument(document: Body, pages: seq<Body>, outline: Body, links: seq<Body>)
      returns (r: Result<DocumentHandle, Error>)
      requires Valid() && |links| == |pages|
      modifies this
      ensures Valid()
      ensures r.Ok? <==> |pages| <= U32_MAX && old(nextGeneration) < U64_MAX && AllSound(document, pages, outline, links)
      ensures r.Ok? ==>
                && r.value == DocumentHandle(old(nextGeneration), 1)
                && active == Some(Seeded(r.value, document, pages, outline, links))
                && active.value.pageCount == |pages| && active.value.nextSnapshotRevision == 2
                && active.value.nextViewportRevision == 0 && active.value.nextOverlayId == |pages| + 2
                && active.value.pendingNavigation.None? && active.value.overlays.None?
                && retired == old(retired) + old(ActiveGeneration())
                && issued == old(issued) + [r.value.generation]
      ensures r.Err? ==>
                && issued == old(issued)
                && active == old(active) && retired == old(retired)
                && receipts == old(receipts) && overlayIds == old(overlayIds)
                && nextGeneration
                   == old(nextGeneration) + (if |pages| <= U32_MAX && old(nextGeneration) < U64_MAX then 1 else 0)
    {
      if |pages| > U32_MAX {
        return Err(LimitExceeded);
      }
      var generation := AllocateGeneration();
      if generation.Err? {
        return Err(generation.error);
      }
      var handle := DocumentHandle(generation.value, 1);
      var seeded := Seed(handle, document, pages, outline, links);
      if seeded.Err? {
        return Err(seeded.error);
      }
      retired := retired + ActiveGeneration();
      active, receipts, overlayIds := Some(seeded.value), [], [];
      issued := issued + [handle.generation];
      SeededIsCounted(handle, document, pages, outline, links);
      r := Ok(handle);
    }

    /** Publishes under a revision the caller chose; only a newer one is taken. */
    method PublishSnapshot(s: Snapshot) returns (r: Option<Error>)
      requires Valid() && s.revision <= U64_MAX
      modifies this`active
      ensures Valid()
      ensures old(active).None? ==> r == Some(NoActiveDocument)
      ensures r.Some? ==> active == old(active)
      ensures old(active).Some? ==>
                (r.None? <==>
                   && Publishable(old(active).value, s)
                   && (SlotOf(s) in old(active).value.slots ==>
                         old(active).value.slots[SlotOf(s)].revision < s.revision))
      ensures r.None? ==> Stored(old(active), active, s)
    {
      if active.None? {
        return Some(NoActiveDocument);
      }
      RefusalMeans(active.value, s);
      match PublishInto(active.value, s)
      case Err(e) => r := Some(e);
      case Ok(next) =>
        PublishKeepsCount(active.value, s);
        RisingWiden(receipts, active.value.nextViewportRevision + 1, next.nextViewportRevision + 1);
        active := Some(next);
        r := None;
    }

    /**
      Publishes reader state unless it repeats what is stored. The answer says whether anything
      was stored; a refusal may spend a revision but changes no slot, and is never for a stale revision.
    */
    method PublishLive(s: Snapshot) returns (r: Result<bool, Error>)
      requires Valid()
      modifies this`active
      ensures Valid()
      ensures old(active).None? ==> r == Err(NoActiveDocument) && active == old(active)
      ensures r != Err(StaleRevision)
      ensures r == Ok(true) ==> Stored(old(active), active, WithRevision(s, old(active).value.nextSnapshotRevision))
      ensures r == Ok(false) ==> active == old(active) && Matches(active.value, s)
      ensures r.Err? && old(active).Some? ==>
                && active.Some? && active.value.slots == old(active).value.slots
                && active.value.document == old(active).value.document
                && active.value.nextViewportRevision == old(active).value.nextViewportRevision
      ensures r == Ok(false) <==>
                old(active).Some? && Addressed(old(active).value, s) && Repeats(old(active).value, s)
      ensures r == Ok(true) <==>
                && old(active).Some? && Publishable(old(active).value, s) && !Repeats(old(active).value, s)
                && old(active).value.nextSnapshotRevision < U64_MAX
      ensures r.Ok? ==> active.Some? && Repeats(active.value, s)
      ensures active.Some? ==>
                active.value.nextSnapshotRevision
                == old(active).value.nextSnapshotRevision
                   + (if && Addressed(old(active).value, s) && !Repeats(old(active).value, s)
                         && old(active).value.nextSnapshotRevision < U64_MAX then 1 else 0)
      ensures r == Err(Exhausted) ==> active == old(active) && old(active).value.nextSnapshotRevision == U64_MAX
      ensures old(active).Some? && Addressed(old(active).value, s) && !Repeats(old(active).value, s) ==>
                (r == Err(Exhausted) <==> old(active).value.nextSnapshotRevision == U64_MAX)
    {
      hide Refusal, SnapshotDocument, RequirePages, Publishable, Addressed, Repeats, Matches;
      if active.None? {
        return Err(NoActiveDocument);
      }
      var a := active.value;
      RefusalIsNotStale(a, s);
      AddressedMeans(a, s);
      MatchesMeans(a, s);
      var document := SnapshotDocument(a, s);
      if document.Err? {
        return Err(document.error);
      }
      var refused := RequireDocument(a, document.value);
      if refused.Some? {
        return Err(refused.value);
      }
      if Matches(a, s) {
        return Ok(false);
      }
      if a.nextSnapshotRevision == U64_MAX {
        return Err(Exhausted);
      }
      var revision := a.nextSnapshotRevision;
      LiveRevisionIsNewer(a, s);
      var stamped := WithRevision(s, revision);
      a := a.(nextSnapshotRevision := revision + 1);
      active := Some(a);
      assert Counted(a);
      assert stamped.revision == revision;
      RefusalIsNotStale(a, stamped);
      RefusalMeans(a, stamped);
      StampedIsTheSame(old(active).value, a, s, revision);
      match PublishInto(a, stamped)
      case Err(e) => r := Err(e);
      case Ok(next) =>
        PublishKeepsCount(a, stamped);
        HoldsContent(next, s, revision);
        RisingWiden(receipts, a.nextViewportRevision + 1, next.nextViewportRevision + 1);
        active := Some(next);
        r := Ok(true);
    }

    /** Accepts a jump; its receipt is numbered after every receipt and viewport before it. */
    method Navigate(document: DocumentHandle, sound: bool, refinable: bool) returns (r: Result<Receipt, Error>)
      requires Valid()
      modifies this`active, this`receipts
      ensures Valid()
      ensures r.Ok? <==>
                && old(active).Some? && sound && refinable && document == old(active).value.document
                && old(active).value.nextViewportRevision < U64_MAX
      ensures r.Err? ==> active == old(active) && receipts == old(receipts)
      ensures r.Ok? ==>
                && old(Accepts(document))
                && active == Some(old(active).value.(nextViewportRevision := r.value.viewportRevision,
                                                     pendingNavigation := Some(r.value)))
                && r.value == Receipt(document, old(active).value.nextViewportRevision + 1)
                && receipts == old(receipts) + [r.value.viewportRevision]
                && (forall i :: 0 <= i < |old(receipts)| ==> old(receipts)[i] < r.value.viewportRevision)
                && (ViewportSlot in active.value.slots ==>
                      active.value.slots[ViewportSlot].revision < r.value.viewportRevision)
    {
      if active.None? {
        return Err(NoActiveDocument);
      }
      var a := active.value;
      if !sound {
        return Err(ContractViolation);
      }
      var refused := RequireDocument(a, document);
      if refused.Some? {
        return Err(refused.value);
      }
      if !refinable {
        return Err(ContractViolation);
      }
      if a.nextViewportRevision == U64_MAX {
        return Err(Exhausted);
      }
      var receipt := Receipt(a.document, a.nextViewportRevision + 1);
      active := Some(a.(nextViewportRevision := a.nextViewportRevision + 1, pendingNavigation := Some(receipt)));
      receipts := receipts + [receipt.viewportRevision];
      r := Ok(receipt);
    }

    /** Hands over the latest accepted jump, once. */
    method TakePendingNavigation() returns (r: Result<Option<Receipt>, Error>)
      requires Valid()
      modifies this`active
      ensures Valid()
      ensures active.None? <==> old(active).None?
      ensures r == if active.None? then Err(NoActiveDocument) else Ok(old(active).value.pendingNavigation)
      ensures active.Some? ==> active.value == old(active).value.(pendingNavigation := None)
    {
      if active.None? {
        return Err(NoActiveDocument);
      }
      r := Ok(active.value.pendingNavigation);
      active := Some(active.value.(pendingNavigation := None));
    }

    /** Replaces the overlay set under a newer revision and issues an id never used before. */
    method ReplaceOverlays(document: DocumentHandle, revision: nat, count: nat, sound: bool)
      returns (r: Result<OverlayHandle, Error>)
      requires Valid()
      modifies this`active, this`overlayIds
      ensures Valid()
      ensures active.Some? <==> old(active).Some?
      ensures r.Ok? <==>
                && old(active).Some? && sound && document == old(active).value.document && count <= U32_MAX
                && (old(active).value.overlays.Some? ==> old(active).value.overlays.value < revision)
                && old(active).value.nextOverlayId < U64_MAX
      ensures active.Some? ==>
                active.value.slots == old(active).value.slots && active.value.document == old(active).value.document
      ensures r.Err? && active.Some? ==>
                && active.value.overlays == old(active).value.overlays && overlayIds == old(overlayIds)
                && active.value.nextOverlayId
                   == old(active).value.nextOverlayId
                      + (if && sound && document == old(active).value.document && count > U32_MAX
                            && (old(active).value.overlays.Some? ==> old(active).value.overlays.value < revision)
                            && old(active).value.nextOverlayId < U64_MAX then 1 else 0)
      ensures r.Ok? ==>
                && old(Accepts(document))
                && r.value.generation == document.generation
                && overlayIds == old(overlayIds) + [r.value.id]
                && (forall i :: 0 <= i < |old(overlayIds)| ==> old(overlayIds)[i] < r.value.id)
                && active.value.overlays == Some(revision)
                && (old(active).value.overlays.Some? ==> old(active).value.overlays.value < revision)
    {
      if active.None? {
        return Err(NoActiveDocument);
      }
      var a := active.value;
      if !sound {
        return Err(ContractViolation);
      }
      var refused := RequireDocument(a, document);
      if refused.Some? {
        return Err(refused.value);
      }
      if a.overlays.Some? && revision <= a.overlays.value {
        return Err(StaleRevision);
      }
      if a.nextOverlayId == U64_MAX {
        return Err(Exhausted);
      }
      var handle := OverlayHandle(a.document.generation, a.nextOverlayId);
      RisingWiden(overlayIds, a.nextOverlayId, a.nextOverlayId + 1);
      a := a.(nextOverlayId := a.nextOverlayId + 1);
      active := Some(a);
      if count > U32_MAX {
        return Err(LimitExceeded);
      }
      active := Some(a.(overlays := Some(revision)));
      overlayIds := overlayIds + [handle.id];
      r := Ok(handle);
    }
  }

  /** Strictly rising numbers, all below a bound. */
  ghost predicate Rising(xs: seq<nat>, bound: nat) {
    && (forall i :: 0 <= i < |xs| ==> xs[i] < bound)
    && (forall i, j :: 0 <= i < j < |xs| ==> xs[i] < xs[j])
  }

  lemma RisingWiden(xs: seq<nat>, bound: nat, wider: nat)
    requires Rising(xs, bound) && bound <= wider
    ensures Rising(xs, wider)
  {
  }

  /** One slot holds the new snapshot, under a revision above the one it held; the others are as they were. */
  ghost predicate Stored(before: Option<ActiveDocument>, after: Option<ActiveDocument>, s: Snapshot) {
    && before.Some? && after.Some?
    && after.value.slots == before.value.slots[SlotOf(s) := s]
    && Newer(before.value, s)
    && after.value.document == before.value.document && after.value.pageCount == before.value.pageCount
    && after.value.overlays == before.value.overlays
    && after.value.pendingNavigation == before.value.pendingNavigation
    && before.value.nextViewportRevision <= after.value.nextViewportRevision
    && before.value.nextSnapshotRevision <= after.value.nextSnapshotRevision
  }

  // ---- Seeding ----

  predicate AllSound(document: Body, pages: seq<Body>, outline: Body, links: seq<Body>) {
    document.sound && outline.sound
    && (forall i :: 0 <= i < |pages| ==> pages[i].sound) && (forall i :: 0 <= i < |links| ==> links[i].sound)
  }

  function RefOf(d: DocumentHandle, i: nat): PageRef { PageRef(PageHandle(d.generation, i + 2), i) }

  /** The stores of a freshly opened document, page by page. */
  function SeededSlots(d: DocumentHandle, document: Body, pages: seq<Body>, outline: Body, links: seq<Body>)
    : map<Slot, Snapshot>
  {
    PageSlots(d, pages)[DocumentSlot := Document(d, 1, document)][OutlineSlot := Outline(d, 1, outline)]
    + LinkSlots(d, links)
  }

  function PageSlots(d: DocumentHandle, pages: seq<Body>): map<Slot, Snapshot> {
    if pages == [] then map[]
    else var n := |pages| - 1; PageSlots(d, pages[..n])[PageSlot(n) := Page(d, RefOf(d, n), 1, pages[n])]
  }

  function LinkSlots(d: DocumentHandle, links: seq<Body>): map<Slot, Snapshot> {
    if links == [] then map[]
    else var n := |links| - 1; LinkSlots(d, links[..n])[LinksSlot(n) := Links(RefOf(d, n), 1, links[n])]
  }

  function Seeded(d: DocumentHandle, document: Body, pages: seq<Body>, outline: Body, links: seq<Body>): ActiveDocument {
    Opened(d, |pages|).(slots := SeededSlots(d, document, pages, outline, links))
  }

  lemma {:induction false} PageSlotsAre(d: DocumentHandle, pages: seq<Body>)
    ensures forall k :: k in PageSlots(d, pages) <==> k.PageSlot? && k.page < |pages|
    ensures forall k :: k in PageSlots(d, pages) ==>
        PageSlots(d, pages)[k] == Page(d, RefOf(d, k.page), 1, pages[k.page])
  {
    if pages != [] {
      PageSlotsAre(d, pages[..|pages| - 1]);
    }
  }

  lemma {:induction false} LinkSlotsAre(d: DocumentHandle, links: seq<Body>)
    ensures forall k :: k in LinkSlots(d, links) <==> k.LinksSlot? && k.page < |links|
    ensures forall k :: k in LinkSlots(d, links) ==> LinkSlots(d, links)[k] == Links(RefOf(d, k.page), 1, links[k.page])
  {
    if links != [] {
      LinkSlotsAre(d, links[..|links| - 1]);
    }
  }

  lemma SeededIsCounted(d: DocumentHandle, document: Body, pages: seq<Body>, outline: Body, links: seq<Body>)
    requires d.id == 1 && |pages| <= U32_MAX
    ensures Counted(Seeded(d, document, pages, outline, links))
  {
    PageSlotsAre(d, pages);
    LinkSlotsAre(d, links);
  }

  /** Publishes the seeds one by one into a document nobody can see yet. */
  method Seed(d: DocumentHandle, document: Body, pages: seq<Body>, outline: Body, links: seq<Body>)
    returns (r: Result<ActiveDocument, Error>)
    requires d.id == 1 && |pages| == |links| <= U32_MAX
    ensures r.Ok? <==> AllSound(document, pages, outline, links)
    ensures r.Ok? ==> r.value == Seeded(d, document, pages, outline, links)
  {
    var next := PublishInto(Opened(d, |pages|), Document(d, 1, document));
    if next.Err? {
      return next;
    }
    next := SeedPages(d, next.value, pages);
    if next.Err? {
      return next;
    }
    PageSlotsAre(d, pages);
    assert OutlineSlot !in next.value.slots;
    next := PublishInto(next.value, Outline(d, 1, outline));
    if next.Err? {
      return next;
    }
    assert PageSlots(d, pages)[DocumentSlot := Document(d, 1, document)]
        == map[DocumentSlot := Document(d, 1, document)] + PageSlots(d, pages);
    r := SeedLinks(d, next.value, links);
  }

  /** A first, well-addressed snapshot of a slot is taken exactly when its content is sound. */
  lemma PublishFirst(a: ActiveDocument, s: Snapshot)
    requires SlotOf(s) !in a.slots && a.nextSnapshotRevision >= 2 && s.revision == 1
    requires s.Page? || s.Links?
    requires s.at == RefOf(a.document, s.at.index) && s.at.index < a.pageCount
    requires s.Page? ==> s.document == a.document
    ensures PublishInto(a, s).Ok? <==> s.body.sound
    ensures s.body.sound ==> PublishInto(a, s).value == a.(slots := a.slots[SlotOf(s) := s])
  {
  }

  lemma NoPages(d: DocumentHandle)
    ensures PageSlots(d, []) == map[]
  {
  }

  lemma OneMorePage(d: DocumentHandle, slots: map<Slot, Snapshot>, pages: seq<Body>, i: nat)
    requires i < |pages|
    ensures slots + PageSlots(d, pages[..i + 1])
            == (slots + PageSlots(d, pages[..i]))[PageSlot(i) := Page(d, RefOf(d, i), 1, pages[i])]
  {
    assert pages[..i + 1][..i] == pages[..i];
  }

  method SeedPages(d: DocumentHandle, start: ActiveDocument, pages: seq<Body>)
      returns (r: Result<ActiveDocument, Error>)
    requires start.document == d && start.pageCount == |pages| && start.nextSnapshotRevision >= 2
    requires forall k :: k in start.slots ==> !k.PageSlot?
    ensures r.Ok? <==> forall i :: 0 <= i < |pages| ==> pages[i].sound
    ensures r.Ok? ==> r.value == start.(slots := start.slots + PageSlots(d, pages))
  {
    hide PublishInto, PageSlots;
    var a := start;
    NoPages(d);
    for i := 0 to |pages|
      invariant a == start.(slots := start.slots + PageSlots(d, pages[..i]))
      invariant forall j :: 0 <= j < i ==> pages[j].sound
    {
      PageSlotsAre(d, pages[..i]);
      OneMorePage(d, start.slots, pages, i);
      PublishFirst(a, Page(d, RefOf(d, i), 1, pages[i]));
      var next := PublishInto(a, Page(d, RefOf(d, i), 1, pages[i]));
      if next.Err? {
        return next;
      }
      a := next.value;
    }
    assert pages[..|pages|] == pages;
    r := Ok(a);
  }

  lemma NoLinks(d: DocumentHandle)
    ensures LinkSlots(d, []) == map[]
  {
  }

  lemma OneMoreLink(d: DocumentHandle, slots: map<Slot, Snapshot>, links: seq<Body>, i: nat)
    requires i < |links|
    ensures slots + LinkSlots(d, links[..i + 1])
            == (slots + LinkSlots(d, links[..i]))[LinksSlot(i) := Links(RefOf(d, i), 1, links[i])]
  {
    assert links[..i + 1][..i] == links[..i];
  }

  method SeedLinks(d: DocumentHandle, start: ActiveDocument, links: seq<Body>)
      returns (r: Result<ActiveDocument, Error>)
    requires start.document == d && start.pageCount == |links| && start.nextSnapshotRevision >= 2
    requires forall k :: k in start.slots ==> !k.LinksSlot?
    ensures r.Ok? <==> forall i :: 0 <= i < |links| ==> links[i].sound
    ensures r.Ok? ==> r.value == start.(slots := start.slots + LinkSlots(d, links))
  {
    hide PublishInto, LinkSlots;
    var a := start;
    NoLinks(d);
    for i := 0 to |links|
      invariant a == start.(slots := start.slots + LinkSlots(d, links[..i]))
      invariant forall j :: 0 <= j < i ==> links[j].sound
    {
      LinkSlotsAre(d, links[..i]);
      OneMoreLink(d, start.slots, links, i);
      PublishFirst(a, Links(RefOf(d, i), 1, links[i]));
      var next := PublishInto(a, Links(RefOf(d, i), 1, links[i]));
      if next.Err? {
        return next;
      }
      a := next.value;
    }
    assert links[..|links|] == links;
    r := Ok(a);
  }
}
