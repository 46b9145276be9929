/**
 * The outer idempotency keys: one text key per (operation, arguments), built by
 * joining colon-separated segments. `Key` is the whole family of builders and
 * `Decode` reads a key back.
 */
module IdempotencyKeys {
  import opened Common

  datatype EntityKind = Case | WorkOrder

  datatype EditOp = One | Slot | Scope

  datatype CancelScope = This | ThisAndFollowing | Series

  /** One call of one key builder. */
  datatype Call =
    | Patch(kind: EntityKind, entityId: string, requestId: string)
    | Dispatch(parentId: string, requestId: string)
    | DispatchBatch(parentId: string, requestId: string)
    | WorkflowAssignment(instanceId: string, nodeId: string, entityId: string)
    | WorkflowUpdateTicket(instanceId: string, nodeId: string, entityId: string)
    | CreateTicket(actor: string, requestId: string)
    | Reclassify(ticketId: string, requestId: string)
    | ApprovalGrant(approvalId: string, requestId: string)
    | EditBooking(bookingId: string, requestId: string, op: Option<EditOp>)
    | CancelBooking(bookingId: string, requestId: string, scope: CancelScope)
    | SplitSeries(bookingId: string, requestId: string)
    | AttachServices(bookingId: string, requestId: string)
    | CancelOrderLines(bookingId: string, requestId: string)
    | Reassign(kind: EntityKind, entityId: string, requestId: string)
    | SlaEscalation(timerId: string, atPercent: nat, timerType: string)

  /** The fixed words of the templates. */
  datatype Word =
    WPatch | WCase | WWorkOrder | WDispatch | WDispatchBatch | WWorkflow | WAssignment | WUpdateTicket |
    WCreate | WTicket | WReclassify | WApproval | WGrant | WBooking | WEdit | WOne | WSlot | WScope |
    WCancel | WThis | WThisAndFollowing | WSeries | WRecurrence | WSplit | WAttach | WLines | WReassign
    | WSla | WEscalation

  function WordText(w: Word): string {
    match w
    case WPatch => "patch"
    case WCase => "case"
    case WWorkOrder => "work_order"
    case WDispatch => "dispatch"
    case WDispatchBatch => "dispatch_batch"
    case WWorkflow => "workflow"
    case WAssignment => "assignment"
    case WUpdateTicket => "update_ticket"
    case WCreate => "create"
    case WTicket => "ticket"
    case WReclassify => "reclassify"
    case WApproval => "approval"
    case WGrant => "grant"
    case WBooking => "booking"
    case WEdit => "edit"
    case WOne => "one"
    case WSlot => "slot"
    case WScope => "scope"
    case WCancel => "cancel"
    case WThis => "this"
    case WThisAndFollowing => "this_and_following"
    case WSeries => "series"
    case WRecurrence => "recurrence"
    case WSplit => "split"
    case WAttach => "attach"
    case WLines => "lines"
    case WReassign => "reassign"
    case WSla => "sla"
    case WEscalation => "escalation"
  }

  /** The only word `t` could be, by its length and a letter or two. */
  function GuessWord(t: string): Option<Word> {
    if |t| == 3 then Some(if t[0] == 'o' then WOne else WSla)
    else if |t| == 4 then
      Some(if t[0] == 'c' then WCase else if t[0] == 'e' then WEdit else if t[0] == 's' then WSlot else WThis)
    else if |t| == 5 then
      Some(if t[0] == 'p' then WPatch else if t[0] == 'g' then WGrant else if t[0] == 'l' then WLines
           else if t[1] == 'c' then WScope else WSplit)
    else if |t| == 6 then
      Some(if t[0] == 't' then WTicket else if t[0] == 's' then WSeries else if t[0] == 'a' then WAttach
           else if t[1] == 'r' then WCreate else WCancel)
    else if |t| == 7 then Some(WBooking)
    else if |t| == 8 then
      Some(if t[0] == 'd' then WDispatch else if t[0] == 'w' then WWorkflow
           else if t[0] == 'a' then WApproval else WReassign)
    else if |t| == 10 then
      Some(if t[0] == 'w' then WWorkOrder else if t[0] == 'a' then WAssignment else if t[0] == 'e' then WEscalation
           else if t[3] == 'l' then WReclassify else WRecurrence)
    else if |t| == 13 then Some(WUpdateTicket)
    else if |t| == 14 then Some(WDispatchBatch)
    else if |t| == 18 then Some(WThisAndFollowing)
    else None
  }

  function ParseWord(t: string): (r: Option<Word>)
    ensures r.Some? ==> WordText(r.value) == t
  {
    var g := GuessWord(t);
    if g.Some? && WordText(g.value) == t then g else None
  }

  lemma WordsReadBack(w: Word)
    ensures ParseWord(WordText(w)) == Some(w) && ColonFree(WordText(w))
  {
    WordsAreGuessed(w);
  }

  lemma WordsAreGuessed(w: Word)
    ensures GuessWord(WordText(w)) == Some(w)
  {
  }

  function KindWord(k: EntityKind): Word {
    match k case Case => WCase case WorkOrder => WWorkOrder
  }

  function OpWord(o: EditOp): Word {
    match o case One => WOne case Slot => WSlot case Scope => WScope
  }

  function ScopeWord(c: CancelScope): Word {
    match c case This => WThis case ThisAndFollowing => WThisAndFollowing case Series => WSeries
  }

  /** `head:rest`. */
  function Seg(head: string, rest: string): string { head + [':'] + rest }

  function WordSeg(w: Word, rest: string): string { Seg(WordText(w), rest) }

  /** The builders, each written with the segments of its template. */
  function Key(c: Call): string {
    match c
    case Patch(k, e, r) => WordSeg(WPatch, WordSeg(KindWord(k), Seg(e, r)))
    case Dispatch(p, r) => WordSeg(WDispatch, Seg(p, r))
    case DispatchBatch(p, r) => WordSeg(WDispatchBatch, Seg(p, r))
    case WorkflowAssignment(i, n, e) => WordSeg(WWorkflow, WordSeg(WAssignment, Seg(i, Seg(n, e))))
    case WorkflowUpdateTicket(i, n, e) => WordSeg(WWorkflow, WordSeg(WUpdateTicket, Seg(i, Seg(n, e))))
    case CreateTicket(a, r) => WordSeg(WCreate, WordSeg(WTicket, Seg(a, r)))
    case Reclassify(t, r) => WordSeg(WReclassify, Seg(t, r))
    case ApprovalGrant(a, r) => WordSeg(WApproval, WordSeg(WGrant, Seg(a, r)))
    case EditBooking(b, r, Some(o)) => WordSeg(WBooking, WordSeg(WEdit, WordSeg(OpWord(o), Seg(b, r))))
    case EditBooking(b, r, None) => WordSeg(WBooking, WordSeg(WEdit, Seg(b, r)))
    case CancelBooking(b, r, sc) => WordSeg(WBooking, WordSeg(WCancel, WordSeg(ScopeWord(sc), Seg(b, r))))
    case SplitSeries(b, r) => WordSeg(WBooking, WordSeg(WRecurrence, WordSeg(WSplit, Seg(b, r))))
    case AttachServices(b, r) => WordSeg(WBooking, WordSeg(WAttach, Seg(b, r)))
    case CancelOrderLines(b, r) => WordSeg(WBooking, WordSeg(WLines, WordSeg(WCancel, Seg(b, r))))
    case Reassign(k, e, r) => WordSeg(WReassign, WordSeg(KindWord(k), Seg(e, r)))
    case SlaEscalation(t, n, ty) => WordSeg(WSla, WordSeg(WEscalation, Seg(t, Seg(NatText(n), ty))))
  }

  /** The templates as lists of segments. */
  function Template(c: Call): (t: seq<string>)
    ensures t != []
  {
    match c
    case Patch(k, e, r) => ["patch", if k == Case then "case" else "work_order", e, r]
    case Dispatch(p, r) => ["dispatch", p, r]
    case DispatchBatch(p, r) => ["dispatch_batch", p, r]
    case WorkflowAssignment(i, n, e) => ["workflow", "assignment", i, n, e]
    case WorkflowUpdateTicket(i, n, e) => ["workflow", "update_ticket", i, n, e]
    case CreateTicket(a, r) => ["create", "ticket", a, r]
    case Reclassify(t, r) => ["reclassify", t, r]
    case ApprovalGrant(a, r) => ["approval", "grant", a, r]
    case EditBooking(b, r, None) => ["booking", "edit", b, r]
    case EditBooking(b, r, Some(o)) => ["booking", "edit", match o case One => "one" case Slot => "slot" case Scope => "scope", b, r]
    case CancelBooking(b, r, sc) =>
      ["booking", "cancel", match sc case This => "this" case ThisAndFollowing => "this_and_following" case Series => "series", b, r]
    case SplitSeries(b, r) => ["booking", "recurrence", "split", b, r]
    case AttachServices(b, r) => ["booking", "attach", b, r]
    case CancelOrderLines(b, r) => ["booking", "lines", "cancel", b, r]
    case Reassign(k, e, r) => ["reassign", if k == Case then "case" else "work_order", e, r]
    case SlaEscalation(t, n, ty) => ["sla", "escalation", t, NatText(n), ty]
  }

  lemma Join3(p: seq<string>)
    requires |p| == 3
    ensures Joined(p) == Seg(p[0], Seg(p[1], p[2]))
  {
    assert p[1..][1..] == [p[2]];
    assert Joined(p[1..]) == p[1] + [':'] + Joined([p[2]]);
  }

  lemma Join4(p: seq<string>)
    requires |p| == 4
    ensures Joined(p) == Seg(p[0], Seg(p[1], Seg(p[2], p[3])))
  {
    Join3(p[1..]);
  }

  lemma Join5(p: seq<string>)
    requires |p| == 5
    ensures Joined(p) == Seg(p[0], Seg(p[1], Seg(p[2], Seg(p[3], p[4]))))
  {
    Join4(p[1..]);
  }

  lemma TicketTemplate(c: Call)
    requires c.Patch? || c.Reassign?
    ensures Key(c) == Joined(Template(c))
  {
    hide Joined, Seg, NatText;
    Join4(Template(c));
  }

  lemma DispatchTemplate(c: Call)
    requires c.Dispatch? || c.DispatchBatch? || c.Reclassify?
    ensures Key(c) == Joined(Template(c))
  {
    hide Joined, Seg, NatText;
    Join3(Template(c));
  }

  lemma CreateTemplate(c: Call)
    requires c.CreateTicket? || c.ApprovalGrant?
    ensures Key(c) == Joined(Template(c))
  {
    hide Joined, Seg, NatText;
    Join4(Template(c));
  }

  lemma WorkflowTemplate(c: Call)
    requires c.WorkflowAssignment? || c.WorkflowUpdateTicket?
    ensures Key(c) == Joined(Template(c))
  {
    hide Joined, Seg, NatText;
    Join5(Template(c));
  }

  lemma SlaTemplate(c: Call)
    requires c.SlaEscalation?
    ensures Key(c) == Joined(Template(c))
  {
    hide Joined, Seg, NatText;
    Join5(Template(c));
  }

  lemma EditTemplate(c: Call)
    requires c.EditBooking?
    ensures Key(c) == Joined(Template(c))
  {
    hide Joined, Seg, NatText;
    if c.op.None? { Join4(Template(c)); } else { Join5(Template(c)); }
  }

  lemma CancelTemplate(c: Call)
    requires c.CancelBooking?
    ensures Key(c) == Joined(Template(c))
  {
    hide Joined, Seg, NatText;
    Join5(Template(c));
  }

  lemma AttachTemplate(c: Call)
    requires c.AttachServices?
    ensures Key(c) == Joined(Template(c))
  {
    hide Joined, Seg, NatText;
    Join4(Template(c));
  }

  lemma SplitTemplate(c: Call)
    requires c.SplitSeries?
    ensures Key(c) == Joined(Template(c))
  {
    hide Joined, Seg, NatText;
    Join5(Template(c));
  }

  lemma LinesTemplate(c: Call)
    requires c.CancelOrderLines?
    ensures Key(c) == Joined(Template(c))
  {
    hide Joined, Seg, NatText;
    Join5(Template(c));
  }

  /** Every builder joins the segments of its template. */
  lemma KeyIsItsTemplate(c: Call)
    ensures Key(c) == Joined(Template(c))
  {
    hide Key, Template, Joined;
    match c
    case Patch(_, _, _) => TicketTemplate(c);
    case Reassign(_, _, _) => TicketTemplate(c);
    case Dispatch(_, _) => DispatchTemplate(c);
    case DispatchBatch(_, _) => DispatchTemplate(c);
    case Reclassify(_, _) => DispatchTemplate(c);
    case CreateTicket(_, _) => CreateTemplate(c);
    case ApprovalGrant(_, _) => CreateTemplate(c);
    case WorkflowAssignment(_, _, _) => WorkflowTemplate(c);
    case WorkflowUpdateTicket(_, _, _) => WorkflowTemplate(c);
    case SlaEscalation(_, _, _) => SlaTemplate(c);
    case EditBooking(_, _, _) => EditTemplate(c);
    case CancelBooking(_, _, _) => CancelTemplate(c);
    case SplitSeries(_, _) => SplitTemplate(c);
    case AttachServices(_, _) => AttachTemplate(c);
    case CancelOrderLines(_, _) => LinesTemplate(c);
  }

  predicate ColonFree(s: string) { ':' !in s }

  /**
   * What the callers provide: row ids are uuids (or the system actor), so they
   * hold no colon and are no edit-operation word. Request ids, workflow node ids
   * and timer types are unrestricted; the workflow engine does put colons in them.
   */
  predicate CallOk(c: Call) {
    match c
    case Patch(_, e, _) => ColonFree(e)
    case Dispatch(p, _) => ColonFree(p)
    case DispatchBatch(p, _) => ColonFree(p)
    case WorkflowAssignment(i, _, e) => ColonFree(i) && ColonFree(e)
    case WorkflowUpdateTicket(i, _, e) => ColonFree(i) && ColonFree(e)
    case CreateTicket(a, _) => ColonFree(a)
    case Reclassify(t, _) => ColonFree(t)
    case ApprovalGrant(a, _) => ColonFree(a)
    case EditBooking(b, _, Some(_)) => ColonFree(b)
    case EditBooking(b, _, None) => ColonFree(b) && !IsOpText(b)
    case CancelBooking(b, _, _) => ColonFree(b)
    case SplitSeries(b, _) => ColonFree(b)
    case AttachServices(b, _) => ColonFree(b)
    case CancelOrderLines(b, _) => ColonFree(b)
    case Reassign(_, e, _) => ColonFree(e)
    case SlaEscalation(t, _, _) => ColonFree(t)
  }

  // ---------------------------------------------------------------------
  // Reading a key back
  // ---------------------------------------------------------------------

  function ParseKind(w: Word): Option<EntityKind> {
    match w case WCase => Some(Case) case WWorkOrder => Some(WorkOrder) case _ => None
  }

  function ParseOp(w: Word): Option<EditOp> {
    match w case WOne => Some(One) case WSlot => Some(Slot) case WScope => Some(Scope) case _ => None
  }

  function ParseScope(w: Word): Option<CancelScope> {
    match w
    case WThis => Some(This) case WThisAndFollowing => Some(ThisAndFollowing) case WSeries => Some(Series)
    case _ => None
  }

  predicate IsOpText(t: string) { ParseWord(t).Some? && ParseOp(ParseWord(t).value).Some? }

  /** First segment and the rest. */
  function Peel(s: string): (r: Option<(string, string)>)
    ensures r.Some? ==> s == Seg(r.value.0, r.value.1) && ColonFree(r.value.0)
  {
    CutFirst(s, ':')
  }

  /** Everything before the last segment, and that segment. */
  function PeelLast(s: string): (r: Option<(string, string)>)
    ensures r.Some? ==> s == Seg(r.value.0, r.value.1) && ColonFree(r.value.1)
  {
    CutLast(s, ':')
  }

  /** First segment, when it is one of the fixed words, and the rest. */
  function PeelWord(s: string): (r: Option<(Word, string)>)
    ensures r.Some? ==> s == WordSeg(r.value.0, r.value.1)
  {
    match Peel(s)
    case None => None
    case Some((t, rest)) => match ParseWord(t) case None => None case Some(w) => Some((w, rest))
  }

  /** `id:requestId`, for the builders that end that way. */
  datatype Shape =
    | Pair2(w: Word) | Kinded(patch: bool, kind: EntityKind) | Edit(op: EditOp) | Cancel(scope: CancelScope)

  function MakeCall(sh: Shape, id: string, r: string): Option<Call> {
    match sh
    case Kinded(patch, k) => Some(if patch then Patch(k, id, r) else Reassign(k, id, r))
    case Edit(o) => Some(EditBooking(id, r, Some(o)))
    case Cancel(sc) => Some(CancelBooking(id, r, sc))
    case Pair2(w) =>
      match w
      case WDispatch => Some(Dispatch(id, r))
      case WDispatchBatch => Some(DispatchBatch(id, r))
      case WTicket => Some(CreateTicket(id, r))
      case WReclassify => Some(Reclassify(id, r))
      case WGrant => Some(ApprovalGrant(id, r))
      case WSplit => Some(SplitSeries(id, r))
      case WAttach => Some(AttachServices(id, r))
      case WCancel => Some(CancelOrderLines(id, r))
      case _ => None
  }

  function DecodePair(sh: Shape, s: string): Option<Call> {
    match Peel(s) case None => None case Some((id, r)) => MakeCall(sh, id, r)
  }

  /** A fixed word, then a pair. */
  function DecodeWordPair(word: Word, s: string): Option<Call> {
    match PeelWord(s)
    case None => None
    case Some((w, r)) => if w == word then DecodePair(Pair2(word), r) else None
  }

  function DecodeKinded(patch: bool, s: string): Option<Call> {
    match PeelWord(s)
    case None => None
    case Some((w, r)) =>
      match ParseKind(w) case None => None case Some(k) => DecodePair(Kinded(patch, k), r)
  }

  function DecodeWorkflow(s: string): Option<Call> {
    match PeelWord(s)
    case None => None
    case Some((w, r)) =>
      if w != WAssignment && w != WUpdateTicket then None
      else
        match Peel(r)
        case None => None
        case Some((i, rest)) =>
          match PeelLast(rest)
          case None => None
          case Some((n, e)) =>
            Some(if w == WAssignment then WorkflowAssignment(i, n, e) else WorkflowUpdateTicket(i, n, e))
  }

  function DecodeEdit(s: string): Option<Call> {
    match Peel(s)
    case None => None
    case Some((t, r)) =>
      if !IsOpText(t) then Some(EditBooking(t, r, None))
      else DecodePair(Edit(ParseOp(ParseWord(t).value).value), r)
  }

  function DecodeCancel(s: string): Option<Call> {
    match PeelWord(s)
    case None => None
    case Some((w, r)) =>
      match ParseScope(w) case None => None case Some(sc) => DecodePair(Cancel(sc), r)
  }

  function DecodeBooking(s: string): Option<Call> {
    match PeelWord(s)
    case None => None
    case Some((w, r)) =>
      match w
      case WEdit => DecodeEdit(r)
      case WCancel => DecodeCancel(r)
      case WRecurrence => DecodeWordPair(WSplit, r)
      case WAttach => DecodePair(Pair2(WAttach), r)
      case WLines => DecodeWordPair(WCancel, r)
      case _ => None
  }

  function DecodeSla(s: string): Option<Call> {
    match PeelWord(s)
    case None => None
    case Some((w, r)) =>
      if w != WEscalation then None
      else
        match Peel(r)
        case None => None
        case Some((t, rest)) =>
          match Peel(rest)
          case None => None
          case Some((n, ty)) => if Canonical(n) then Some(SlaEscalation(t, TextNat(n), ty)) else None
  }

  function Decode(s: string): Option<Call> {
    match PeelWord(s)
    case None => None
    case Some((w, r)) =>
      match w
      case WPatch => DecodeKinded(true, r)
      case WReassign => DecodeKinded(false, r)
      case WDispatch => DecodePair(Pair2(WDispatch), r)
      case WDispatchBatch => DecodePair(Pair2(WDispatchBatch), r)
      case WReclassify => DecodePair(Pair2(WReclassify), r)
      case WCreate => DecodeWordPair(WTicket, r)
      case WApproval => DecodeWordPair(WGrant, r)
      case WWorkflow => DecodeWorkflow(r)
      case WBooking => DecodeBooking(r)
      case WSla => DecodeSla(r)
      case _ => None
  }

  lemma PeelSeg(head: string, rest: string)
    requires ColonFree(head)
    ensures Peel(Seg(head, rest)) == Some((head, rest))
  {
    CutFirstUnique(head, ':', rest);
  }

  lemma PeelLastSeg(rest: string, last: string)
    requires ColonFree(last)
    ensures PeelLast(Seg(rest, last)) == Some((rest, last))
  {
    CutLastUnique(rest, ':', last);
  }

  lemma PeelWordSeg(w: Word, rest: string)
    ensures PeelWord(WordSeg(w, rest)) == Some((w, rest))
  {
    WordsReadBack(w);
    PeelSeg(WordText(w), rest);
  }

  /** `w1:w2:id:r` peels to its two words and its pair. */
  lemma PeelTwo(w1: Word, w2: Word, rest: string)
    ensures PeelWord(WordSeg(w1, WordSeg(w2, rest))) == Some((w1, WordSeg(w2, rest)))
    ensures PeelWord(WordSeg(w2, rest)) == Some((w2, rest))
  {
    PeelWordSeg(w2, rest);
    PeelWordSeg(w1, WordSeg(w2, rest));
  }

  lemma EditRoundTrip(c: Call)
    requires CallOk(c) && c.EditBooking?
    ensures Decode(Key(c)) == Some(c)
  {
    hide WordText, ParseWord, Seg, Peel, PeelLast, PeelWord, CutFirst, CutLast;
    var pair := Seg(c.bookingId, c.requestId);
    PeelSeg(c.bookingId, c.requestId);
    if c.op.None? {
      PeelTwo(WBooking, WEdit, pair);
    } else {
      var o := OpWord(c.op.value);
      PeelTwo(WBooking, WEdit, WordSeg(o, pair));
      WordsReadBack(o);
      PeelSeg(WordText(o), pair);
    }
  }

  lemma CancelRoundTrip(c: Call)
    requires CallOk(c) && c.CancelBooking?
    ensures Decode(Key(c)) == Some(c)
  {
    hide WordText, ParseWord, WordSeg, Seg, Peel, PeelLast, PeelWord, CutFirst, CutLast;
    var pair := Seg(c.bookingId, c.requestId);
    PeelSeg(c.bookingId, c.requestId);
    PeelTwo(WBooking, WCancel, WordSeg(ScopeWord(c.scope), pair));
    PeelWordSeg(ScopeWord(c.scope), pair);
  }

  lemma SplitRoundTrip(c: Call)
    requires CallOk(c) && c.SplitSeries?
    ensures Decode(Key(c)) == Some(c)
  {
    hide WordText, ParseWord, WordSeg, Seg, Peel, PeelLast, PeelWord, CutFirst, CutLast;
    var pair := Seg(c.bookingId, c.requestId);
    PeelSeg(c.bookingId, c.requestId);
    PeelTwo(WBooking, WRecurrence, WordSeg(WSplit, pair));
    PeelWordSeg(WSplit, pair);
  }

  lemma AttachRoundTrip(c: Call)
    requires CallOk(c) && c.AttachServices?
    ensures Decode(Key(c)) == Some(c)
  {
    hide WordText, ParseWord, WordSeg, Seg, Peel, PeelLast, PeelWord, CutFirst, CutLast;
    PeelSeg(c.bookingId, c.requestId);
    PeelTwo(WBooking, WAttach, Seg(c.bookingId, c.requestId));
  }

  lemma CancelLinesRoundTrip(c: Call)
    requires CallOk(c) && c.CancelOrderLines?
    ensures Decode(Key(c)) == Some(c)
  {
    hide WordText, ParseWord, WordSeg, Seg, Peel, PeelLast, PeelWord, CutFirst, CutLast;
    var pair := Seg(c.bookingId, c.requestId);
    PeelSeg(c.bookingId, c.requestId);
    PeelTwo(WBooking, WLines, WordSeg(WCancel, pair));
    PeelWordSeg(WCancel, pair);
  }

  lemma WorkflowRoundTrip(c: Call)
    requires CallOk(c) && (c.WorkflowAssignment? || c.WorkflowUpdateTicket?)
    ensures Decode(Key(c)) == Some(c)
  {
    hide WordText, ParseWord, WordSeg, Seg, Peel, PeelLast, PeelWord, CutFirst, CutLast;
    var word := if c.WorkflowAssignment? then WAssignment else WUpdateTicket;
    PeelLastSeg(c.nodeId, c.entityId);
    PeelSeg(c.instanceId, Seg(c.nodeId, c.entityId));
    PeelTwo(WWorkflow, word, Seg(c.instanceId, Seg(c.nodeId, c.entityId)));
  }

  lemma SlaRoundTrip(c: Call)
    requires CallOk(c) && c.SlaEscalation?
    ensures Decode(Key(c)) == Some(c)
  {
    hide WordText, ParseWord, WordSeg, Seg, Peel, PeelLast, PeelWord, CutFirst, CutLast;
    var n := NatText(c.atPercent);
    NatTextRoundTrip(c.atPercent);
    NatTextIsCanonical(c.atPercent);
    PeelSeg(n, c.timerType);
    PeelSeg(c.timerId, Seg(n, c.timerType));
    PeelTwo(WSla, WEscalation, Seg(c.timerId, Seg(n, c.timerType)));
  }

  lemma PairRoundTrip(c: Call)
    requires CallOk(c)
    requires c.Patch? || c.Reassign? || c.Dispatch? || c.DispatchBatch? || c.Reclassify? || c.CreateTicket? || c.ApprovalGrant?
    ensures Decode(Key(c)) == Some(c)
  {
    hide WordText, ParseWord, WordSeg, Seg, Peel, PeelLast, PeelWord, CutFirst, CutLast;
    match c
    case Patch(k, e, r) => PeelSeg(e, r); PeelTwo(WPatch, KindWord(k), Seg(e, r));
    case Reassign(k, e, r) => PeelSeg(e, r); PeelTwo(WReassign, KindWord(k), Seg(e, r));
    case Dispatch(p, r) => PeelSeg(p, r); PeelWordSeg(WDispatch, Seg(p, r));
    case DispatchBatch(p, r) => PeelSeg(p, r); PeelWordSeg(WDispatchBatch, Seg(p, r));
    case Reclassify(t, r) => PeelSeg(t, r); PeelWordSeg(WReclassify, Seg(t, r));
    case CreateTicket(a, r) => PeelSeg(a, r); PeelTwo(WCreate, WTicket, Seg(a, r));
    case ApprovalGrant(a, r) => PeelSeg(a, r); PeelTwo(WApproval, WGrant, Seg(a, r));
  }

  /** Main result 1. Every key built from caller-shaped arguments reads back to its call. */
  lemma DecodeKey(c: Call)
    requires CallOk(c)
    ensures Decode(Key(c)) == Some(c)
  {
    hide WordText, ParseWord, WordSeg, Seg, Peel, PeelLast, PeelWord, CutFirst, CutLast;
    match c
    case SlaEscalation(_, _, _) => SlaRoundTrip(c);
    case WorkflowAssignment(_, _, _) => WorkflowRoundTrip(c);
    case WorkflowUpdateTicket(_, _, _) => WorkflowRoundTrip(c);
    case EditBooking(_, _, _) => EditRoundTrip(c);
    case CancelBooking(_, _, _) => CancelRoundTrip(c);
    case SplitSeries(_, _) => SplitRoundTrip(c);
    case AttachServices(_, _) => AttachRoundTrip(c);
    case CancelOrderLines(_, _) => CancelLinesRoundTrip(c);
    case _ => PairRoundTrip(c);
  }

  /** Main result 2. Whatever decodes was built from that very call, and only caller-shaped calls decode. */
  lemma KeyOfDecoded(s: string)
    requires Decode(s).Some?
    ensures Key(Decode(s).value) == s && CallOk(Decode(s).value)
  {
    hide WordText, ParseWord, Seg, Peel, PeelLast, CutFirst, CutLast;
    var (w, r) := PeelWord(s).value;
    match w
    case WSla => KeyOfDecodedSla(r);
    case WBooking => KeyOfDecodedBooking(r);
    case _ =>
  }

  lemma KeyOfDecodedBooking(s: string)
    requires DecodeBooking(s).Some?
    ensures Key(DecodeBooking(s).value) == WordSeg(WBooking, s) && CallOk(DecodeBooking(s).value)
  {
    hide WordText, ParseWord, Seg, Peel, PeelLast, CutFirst, CutLast;
    var (w, r) := PeelWord(s).value;
  }

  lemma KeyOfDecodedSla(s: string)
    requires DecodeSla(s).Some?
    ensures Key(DecodeSla(s).value) == WordSeg(WSla, s) && CallOk(DecodeSla(s).value)
  {
    hide WordText, ParseWord, Seg, Peel, PeelLast, CutFirst, CutLast;
    var (w, r) := PeelWord(s).value;
    var (t, rest) := Peel(r).value;
    var (n, ty) := Peel(rest).value;
    CanonicalTextRoundTrip(n);
  }

  /** Equal keys come from equal operations with equal arguments. */
  lemma KeysNeverCollide(c: Call, d: Call)
    requires CallOk(c) && CallOk(d)
    ensures Key(c) == Key(d) <==> c == d
  {
    DecodeKey(c);
    DecodeKey(d);
  }

  lemma NatTextIsCanonical(n: nat)
    ensures Canonical(NatText(n))
  {
    if n >= 10 { NatTextIsCanonical(n / 10); }
  }

  /** The restriction on legacy edit keys is needed: an id that is an operation word collides. */
  lemma LegacyEditKeyCollides(b: string, r: string, o: EditOp)
    requires ColonFree(b)
    ensures Key(EditBooking(WordText(OpWord(o)), Seg(b, r), None)) == Key(EditBooking(b, r, Some(o)))
    ensures CallOk(EditBooking(b, r, Some(o))) && !CallOk(EditBooking(WordText(OpWord(o)), Seg(b, r), None))
  {
    WordsReadBack(OpWord(o));
  }

  // ---------------------------------------------------------------------
  // Deterministic row ids
  // ---------------------------------------------------------------------

  /** What the dispatch paths feed to the name-based uuid of a child work order. */
  datatype ChildSeed =
    | Single(parentId: string, requestId: string)
    | Child(parentId: string, requestId: string, index: nat)

  function SeedText(c: ChildSeed): string {
    match c
    case Single(p, r) => Key(Dispatch(p, r))
    case Child(p, r, i) => Seg(Key(DispatchBatch(p, r)), NatText(i))
  }

  /** The seed of a batch child is the batch key with the index of the child behind it. */
  lemma SeedIsItsTemplate(p: string, r: string, i: nat)
    ensures SeedText(Single(p, r)) == Joined(["dispatch", p, r])
    ensures SeedText(Child(p, r, i)) == Joined(["dispatch_batch", p, r, NatText(i)])
  {
    KeyIsItsTemplate(Dispatch(p, r));
    Join3(["dispatch_batch", p, r]);
    KeyIsItsTemplate(DispatchBatch(p, r));
    Join4(["dispatch_batch", p, r, NatText(i)]);
    hide NatText, Joined, Key;
    assert Seg(Seg("dispatch_batch", Seg(p, r)), NatText(i)) == Seg("dispatch_batch", Seg(p, Seg(r, NatText(i))));
  }

  /**
   * Main result 3. With a collision-free name-based uuid, two dispatched children
   * share an id only when they are the same child: a batch child is never
   * confused with a single dispatch, nor with a child at another index, even
   * though request ids may themselves hold colons.
   */
  lemma ChildIdsNeverCollide(uuid: string -> string, c: ChildSeed, d: ChildSeed)
    requires forall x, y :: uuid(x) == uuid(y) ==> x == y
    requires ColonFree(c.parentId) && ColonFree(d.parentId)
    requires uuid(SeedText(c)) == uuid(SeedText(d))
    ensures c == d
  {
    if c.Child? { BatchSeedSegments(c); }
    if d.Child? { BatchSeedSegments(d); }
    if c.Single? { SingleSeedSegments(c); }
    if d.Single? { SingleSeedSegments(d); }
    if c.Child? && d.Child? {
      PeelLastSeg(Key(DispatchBatch(c.parentId, c.requestId)), NatText(c.index));
      PeelLastSeg(Key(DispatchBatch(d.parentId, d.requestId)), NatText(d.index));
      NatTextRoundTrip(c.index);
      NatTextRoundTrip(d.index);
      KeysNeverCollide(DispatchBatch(c.parentId, c.requestId), DispatchBatch(d.parentId, d.requestId));
    } else if c.Single? && d.Single? {
      KeysNeverCollide(Dispatch(c.parentId, c.requestId), Dispatch(d.parentId, d.requestId));
    }
  }

  lemma BatchSeedSegments(c: ChildSeed)
    requires c.Child?
    ensures PeelWord(SeedText(c)).Some? && PeelWord(SeedText(c)).value.0 == WDispatchBatch
  {
    var inner := Seg(Seg(c.parentId, c.requestId), NatText(c.index));
    assert SeedText(c) == WordSeg(WDispatchBatch, inner);
    PeelWordSeg(WDispatchBatch, inner);
  }

  lemma SingleSeedSegments(c: ChildSeed)
    requires c.Single?
    ensures PeelWord(SeedText(c)).Some? && PeelWord(SeedText(c)).value.0 == WDispatch
  {
    PeelWordSeg(WDispatch, Seg(c.parentId, c.requestId));
  }
}
