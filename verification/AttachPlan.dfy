/**
 * The booking plan and its row ids. Every id is a name-based UUID of
 * `key:kind:index`; the UUID function is a parameter, assumed injective and
 * colon-free in its results. String order is a parameter too: any total preorder,
 * since `localeCompare` can tie on different strings.
 */
module AttachPlan {
  import opened Common
  import opened Sorting

  // ----- row ids ---------------------------------------------------------------

  datatype Kind = BookingKind | SlotKind | OrderKind | LineKind | AssetKind | ApprovalKind

  function KindText(k: Kind): string {
    match k
    case BookingKind => "booking"
    case SlotKind => "slot"
    case OrderKind => "order"
    case LineKind => "oli"
    case AssetKind => "asset_reservation"
    case ApprovalKind => "approval"
  }

  datatype Problem = KeyRequired | IndexRequired | LineIdRequired(at: nat) | LineIdNotUnique(at: nat)

  datatype IdResult = Id(id: string) | NoId(problem: Problem)

  function Seed(key: string, kind: Kind, index: string): string { key + ":" + (KindText(kind) + ":" + index) }

  /** `planUuid`. */
  function PlanUuid(uuid: string -> string, key: string, kind: Kind, index: string): IdResult {
    if key == "" then NoId(KeyRequired)
    else if index == "" then NoId(IndexRequired)
    else Id(uuid(Seed(key, kind, index)))
  }

  /** What a plan row is, independent of the order of the request. */
  datatype Row =
    | Booking
    | Slot(displayOrder: int)
    | Order(serviceType: string)
    | OrderLine(serviceType: string, clientLineId: string)
    | AssetReservation(serviceType: string, clientLineId: string)
    | Approval(approver: string)
    | Chain

  function KindOf(r: Row): Kind {
    match r
    case Booking => BookingKind
    case Slot(_) => SlotKind
    case Order(_) => OrderKind
    case OrderLine(_, _) => LineKind
    case AssetReservation(_, _) => AssetKind
    case Approval(_) => ApprovalKind
    case Chain => ApprovalKind
  }

  const CHAIN := "__chain__"

  /** The stable index of a row. */
  function Index(uuid: string -> string, key: string, r: Row): string {
    match r
    case Booking => "0"
    case Slot(n) => IntText(n)
    case Order(t) => t
    case OrderLine(t, id) => uuid(Seed(key, OrderKind, t)) + ":" + id
    case AssetReservation(t, id) => uuid(Seed(key, OrderKind, t)) + ":" + id
    case Approval(p) => p
    case Chain => CHAIN
  }

  function RowId(uuid: string -> string, key: string, r: Row): string {
    uuid(Seed(key, KindOf(r), Index(uuid, key, r)))
  }

  /** The seed of every kind of row, spelled out. */
  lemma RowSeeds(uuid: string -> string, key: string, n: int, t: string, p: string)
    ensures RowId(uuid, key, Booking) == uuid(key + ":booking:" + "0")
    ensures RowId(uuid, key, Slot(n)) == uuid(key + ":slot:" + IntText(n))
    ensures RowId(uuid, key, Order(t)) == uuid(key + ":order:" + t)
    ensures RowId(uuid, key, Approval(p)) == uuid(key + ":approval:" + p)
    ensures RowId(uuid, key, Chain) == uuid(key + ":approval:" + "__chain__")
  {
    hide IntText, Seed;
    SeedText(key, OrderKind, t, ":order:");
    SeedText(key, BookingKind, "0", ":booking:");
    SeedText(key, SlotKind, IntText(n), ":slot:");
    SeedText(key, ApprovalKind, p, ":approval:");
    SeedText(key, ApprovalKind, CHAIN, ":approval:");
  }

  lemma LineSeeds(uuid: string -> string, key: string, t: string, id: string)
    ensures var order := uuid(key + ":order:" + t);
            && RowId(uuid, key, OrderLine(t, id)) == uuid(key + ":oli:" + (order + ":" + id))
            && RowId(uuid, key, AssetReservation(t, id)) == uuid(key + ":asset_reservation:" + (order + ":" + id))
  {
    hide Seed;
    var order := uuid(key + ":order:" + t);
    SeedText(key, OrderKind, t, ":order:");
    SeedText(key, LineKind, order + ":" + id, ":oli:");
    SeedText(key, AssetKind, order + ":" + id, ":asset_reservation:");
  }

  lemma SeedText(key: string, k: Kind, i: string, text: string)
    requires text == ":" + KindText(k) + ":"
    ensures Seed(key, k, i) == key + text + i
  {
    hide KindText;
  }

  ghost predicate UuidLike(uuid: string -> string) {
    && (forall a, b :: uuid(a) == uuid(b) ==> a == b)
    && (forall s :: ':' !in uuid(s))
  }

  lemma KindTexts(a: Kind, b: Kind)
    ensures ':' !in KindText(a)
    ensures KindText(a) == KindText(b) ==> a == b
  {
    assert |KindText(a)| == match a case BookingKind => 7 case SlotKind => 4 case OrderKind => 5 case LineKind => 3
                                    case AssetKind => 17 case ApprovalKind => 8;
    assert |KindText(b)| == match b case BookingKind => 7 case SlotKind => 4 case OrderKind => 5 case LineKind => 3
                                    case AssetKind => 17 case ApprovalKind => 8;
  }

  lemma SeedsUnderOneKey(key: string, k: Kind, i: string, k': Kind, i': string)
    requires Seed(key, k, i) == Seed(key, k', i')
    ensures k == k' && i == i'
  {
    hide KindText;
    KindTexts(k, k');
    KindTexts(k', k);
    var s, s' := KindText(k) + ":" + i, KindText(k') + ":" + i';
    assert s == Seed(key, k, i)[|key| + 1..] == s';
    SameCut(KindText(k), i, KindText(k'), i', ':');
  }

  /** Under one key no two rows of a plan share an id, whatever colons the line ids contain. */
  lemma IdsNeverCollide(uuid: string -> string, key: string, r: Row, r': Row)
    requires UuidLike(uuid) && r != Approval(CHAIN) && r' != Approval(CHAIN)
    requires RowId(uuid, key, r) == RowId(uuid, key, r')
    ensures r == r'
  {
    hide Seed;
    assert Seed(key, KindOf(r), Index(uuid, key, r)) == Seed(key, KindOf(r'), Index(uuid, key, r'));
    SeedsUnderOneKey(key, KindOf(r), Index(uuid, key, r), KindOf(r'), Index(uuid, key, r'));
    match r
    case Slot(n) => IntTextInjective(n, r'.displayOrder);
    case OrderLine(t, id) => LinesNeverCollide(uuid, key, t, id, r'.serviceType, r'.clientLineId);
    case AssetReservation(t, id) => LinesNeverCollide(uuid, key, t, id, r'.serviceType, r'.clientLineId);
    case _ =>
  }

  lemma LinesNeverCollide(uuid: string -> string, key: string, t: string, id: string, t': string, id': string)
    requires UuidLike(uuid)
    requires uuid(Seed(key, OrderKind, t)) + ":" + id == uuid(Seed(key, OrderKind, t')) + ":" + id'
    ensures t == t' && id == id'
  {
    hide Seed;
    var o, o' := uuid(Seed(key, OrderKind, t)), uuid(Seed(key, OrderKind, t'));
    SameCut(o, id, o', id', ':');
    SeedsUnderOneKey(key, OrderKind, t, OrderKind, t');
  }

  // ----- ids of different requests ---------------------------------------------

  /** `split(':')`. */
  function Segments(s: string): (r: seq<string>)
    ensures r != [] && forall i :: 0 <= i < |r| ==> ':' !in r[i]
    decreases |s|
  {
    match CutFirst(s, ':')
    case None => [s]
    case Some((h, t)) => [h] + Segments(t)
  }

  lemma {:induction false} JoinSegments(s: string)
    ensures Joined(Segments(s)) == s
    decreases |s|
  {
    match CutFirst(s, ':')
    case None =>
    case Some((h, t)) =>
      JoinSegments(t);
      assert ([h] + Segments(t))[1..] == Segments(t);
  }

  lemma SegmentsCons(h: string, t: string)
    requires ':' !in h
    ensures Segments(h + [':'] + t) == [h] + Segments(t)
  {
    CutFirstUnique(h, ':', t);
  }

  lemma SegmentsOfPlain(s: string)
    requires ':' !in s
    ensures Segments(s) == [s]
  {
  }

  lemma {:induction false} SegmentsAppend(a: string, b: string)
    ensures Segments(a + [':'] + b) == Segments(a) + Segments(b)
    decreases |a|
  {
    hide CutFirst;
    match CutFirst(a, ':')
    case None => SegmentsCons(a, b);
    case Some((h, t)) =>
      assert a + [':'] + b == h + [':'] + (t + [':'] + b);
      SegmentsCons(h, t + [':'] + b);
      SegmentsAppend(t, b);
  }

  lemma {:induction false} SegmentsJoined(parts: seq<string>)
    requires parts != [] && forall i :: 0 <= i < |parts| ==> ':' !in parts[i]
    ensures Segments(Joined(parts)) == parts
  {
    if |parts| == 1 {
      SegmentsOfPlain(parts[0]);
    } else {
      SegmentsJoined(parts[1..]);
      SegmentsCons(parts[0], Joined(parts[1..]));
    }
  }

  lemma SegmentsOfSeed(key: string, k: Kind, i: string)
    ensures Segments(Seed(key, k, i)) == Segments(key) + ([KindText(k)] + Segments(i))
  {
    hide Segments, KindText;
    KindTexts(k, k);
    assert Seed(key, k, i) == key + [':'] + (KindText(k) + [':'] + i);
    SegmentsAppend(key, KindText(k) + [':'] + i);
    SegmentsCons(KindText(k), i);
  }

  /** The key followed by a row-kind word begins the other key, segment by segment. */
  ghost predicate Extends(key: string, key': string) {
    exists k :: Segments(key) + [KindText(k)] <= Segments(key')
  }

  /** Some rows under the two keys have one seed, hence one id. */
  ghost predicate ShareSeed(key: string, key': string) {
    exists k, i, k', i' :: i != "" && i' != "" && Seed(key, k, i) == Seed(key', k', i')
  }

  lemma ShorterKeyExtends(key: string, k: Kind, i: string, key': string, k': Kind, i': string)
    requires Seed(key, k, i) == Seed(key', k', i') && |Segments(key)| <= |Segments(key')|
    ensures key == key' || Extends(key, key')
  {
    hide Segments, KindText, Seed;
    SegmentsOfSeed(key, k, i);
    SegmentsOfSeed(key', k', i');
    var s, s' := Segments(key), Segments(key');
    var all := s + ([KindText(k)] + Segments(i));
    assert all == s' + ([KindText(k')] + Segments(i'));
    assert s == all[..|s|] && s' == all[..|s'|];
    if |s| == |s'| {
      JoinSegments(key);
      JoinSegments(key');
    } else {
      assert all[|s|] == KindText(k);
      assert s + [KindText(k)] == all[..|s| + 1] == s'[..|s| + 1];
    }
  }

  ghost predicate Plain(parts: seq<string>) { forall i :: 0 <= i < |parts| ==> ':' !in parts[i] }

  lemma SegmentsDetermine(a: string, b: string)
    requires Segments(a) == Segments(b)
    ensures a == b
  {
    JoinSegments(a);
    JoinSegments(b);
  }

  lemma ExtendingKeyShares(key: string, key': string)
    requires Extends(key, key')
    ensures ShareSeed(key, key')
  {
    var k :| Segments(key) + [KindText(k)] <= Segments(key');
    SharesWith(key, key', k, Segments(key')[|Segments(key)| + 1..]);
  }

  lemma SharesWith(key: string, key': string, k: Kind, rest: seq<string>)
    requires Segments(key') == Segments(key) + [KindText(k)] + rest && Plain(rest)
    ensures ShareSeed(key, key')
  {
    hide Segments, KindText, Seed;
    var word := KindText(OrderKind);
    var tail := rest + [word, "0"];
    KindTexts(OrderKind, OrderKind);
    SegmentsOfPlain("0");
    SegmentsJoined(tail);
    NonEmptyJoin(tail);
    SegmentsOfSeed(key, k, Joined(tail));
    SegmentsOfSeed(key', OrderKind, "0");
    assert Segments(key) + [KindText(k)] + rest + ([word] + ["0"]) == Segments(key) + ([KindText(k)] + tail);
    SegmentsDetermine(Seed(key, k, Joined(tail)), Seed(key', OrderKind, "0"));
  }

  lemma NonEmptyJoin(parts: seq<string>)
    requires |parts| >= 2
    ensures Joined(parts) != ""
  {
  }

  lemma ShareSeedSymmetric(key: string, key': string)
    requires ShareSeed(key, key')
    ensures ShareSeed(key', key)
  {
    hide Seed;
    var k, i, k', i' :| i != "" && i' != "" && Seed(key, k, i) == Seed(key', k', i');
    assert Seed(key', k', i') == Seed(key, k, i);
  }

  /**
   * Two different keys can give two rows one id exactly when one of them, followed
   * by a row-kind word, begins the other.
   */
  lemma KeysShareExactly(key: string, key': string)
    requires key != key'
    ensures ShareSeed(key, key') <==> Extends(key, key') || Extends(key', key)
  {
    hide Seed, Extends, Segments, KindText;
    if Extends(key, key') { ExtendingKeyShares(key, key'); }
    if Extends(key', key) { ExtendingKeyShares(key', key); ShareSeedSymmetric(key', key); }
    if ShareSeed(key, key') {
      var k, i, k', i' :| i != "" && i' != "" && Seed(key, k, i) == Seed(key', k', i');
      if |Segments(key)| <= |Segments(key')| { ShorterKeyExtends(key, k, i, key', k', i'); }
      else { ShorterKeyExtends(key', k', i', key, k, i); }
    }
  }

  /** Who books: a user, the recurrence job, or the Outlook sync for one event. */
  datatype Actor = User(id: string) | Recurrence | Outlook(event: string)

  /** What the plan is for: a new booking, or services attached to one. */
  datatype Producer = Create(actor: Actor) | Attach(bookingId: string)

  function ActorText(a: Actor): string {
    match a
    case User(id) => id
    case Recurrence => "system:recurrence"
    case Outlook(event) => "system:outlook:" + event
  }

  /** The two shapes of key that reach `planUuid`. */
  function RequestKey(p: Producer, request: string): string {
    match p
    case Create(actor) => "booking.create" + [':'] + (ActorText(actor) + [':'] + request)
    case Attach(b) => "booking" + [':'] + ("attach" + [':'] + (b + [':'] + request))
  }

  /** Ids hold no colon. */
  predicate PlainIds(p: Producer) {
    match p
    case Create(User(id)) => ':' !in id
    case Create(Recurrence) => true
    case Create(Outlook(event)) => ':' !in event
    case Attach(b) => ':' !in b
  }

  /** Request ids are uuids. */
  predicate IsRequestId(c: string) { |c| == 36 && ':' !in c }

  function KeySegments(p: Producer, request: string): seq<string> {
    match p
    case Create(User(id)) => ["booking.create", id, request]
    case Create(Recurrence) => ["booking.create", "system", "recurrence", request]
    case Create(Outlook(event)) => ["booking.create", "system", "outlook", event, request]
    case Attach(b) => ["booking", "attach", b, request]
  }

  lemma ActorSegments(a: Actor)
    requires PlainIds(Create(a))
    ensures Segments(ActorText(a)) ==
            match a case User(id) => [id] case Recurrence => ["system", "recurrence"] case Outlook(e) => ["system", "outlook", e]
  {
    hide Segments;
    match a
    case User(id) => SegmentsOfPlain(id);
    case Recurrence =>
      assert "system:recurrence" == "system" + [':'] + "recurrence";
      SegmentsCons("system", "recurrence");
      SegmentsOfPlain("recurrence");
    case Outlook(e) =>
      assert "system:outlook:" + e == "system" + [':'] + ("outlook" + [':'] + e);
      SegmentsCons("system", "outlook" + [':'] + e);
      SegmentsCons("outlook", e);
      SegmentsOfPlain(e);
  }

  lemma SegmentsOfKey(p: Producer, request: string)
    requires PlainIds(p) && IsRequestId(request)
    ensures Segments(RequestKey(p, request)) == KeySegments(p, request)
  {
    hide Segments, ActorText;
    SegmentsOfPlain(request);
    match p
    case Create(a) =>
      ActorSegments(a);
      SegmentsAppend(ActorText(a), request);
      SegmentsCons("booking.create", ActorText(a) + [':'] + request);
    case Attach(b) =>
      SegmentsCons(b, request);
      SegmentsCons("attach", b + [':'] + request);
      SegmentsCons("booking", "attach" + [':'] + (b + [':'] + request));
  }

  lemma ShortKindText(k: Kind)
    ensures |KindText(k)| < 36
  {
  }

  lemma RequestKeyNeverExtends(p: Producer, c: string, p': Producer, c': string)
    requires PlainIds(p) && PlainIds(p') && IsRequestId(c) && IsRequestId(c')
    ensures !Extends(RequestKey(p, c), RequestKey(p', c'))
  {
    hide Segments, RequestKey, KindText;
    SegmentsOfKey(p, c);
    SegmentsOfKey(p', c');
    var s, s' := KeySegments(p, c), KeySegments(p', c');
    assert |"recurrence"| == 10 && |"outlook"| == 7 && |"booking"| == 7 && |"booking.create"| == 14;
    forall k ensures !(s + [KindText(k)] <= s') {
      ShortKindText(k);
      var t := s + [KindText(k)];
      assert t[0] == s[0] && t[1] == s[1] && t[2] == s[2] && t[|s| - 1] == c && t[|s|] == KindText(k);
    }
  }

  lemma RequestKeysDiffer(p: Producer, c: string, p': Producer, c': string)
    requires PlainIds(p) && PlainIds(p') && IsRequestId(c) && IsRequestId(c')
    requires RequestKey(p, c) == RequestKey(p', c')
    ensures p == p' && c == c'
  {
    hide Segments, RequestKey;
    SegmentsOfKey(p, c);
    SegmentsOfKey(p', c');
    var s, s' := KeySegments(p, c), KeySegments(p', c');
    assert s[0] == s'[0] && s[|s| - 1] == s'[|s'| - 1];
    assert |"booking"| == 7 && |"booking.create"| == 14;
    assert s[|s| - 2] == s'[|s'| - 2];
  }

  /** So, over all requests the program makes, two plan rows share an id only when they are the same row of the same request. */
  lemma RequestsNeverShareIds(uuid: string -> string, p: Producer, c: string, r: Row, p': Producer, c': string, r': Row)
    requires UuidLike(uuid) && PlainIds(p) && PlainIds(p') && IsRequestId(c) && IsRequestId(c')
    requires r != Approval(CHAIN) && r' != Approval(CHAIN)
    requires RowId(uuid, RequestKey(p, c), r) == RowId(uuid, RequestKey(p', c'), r')
    ensures p == p' && c == c' && r == r'
  {
    hide Segments, RequestKey, Seed, Extends, Index;
    var key, key' := RequestKey(p, c), RequestKey(p', c');
    var i, i' := Index(uuid, key, r), Index(uuid, key', r');
    RequestKeyNeverExtends(p, c, p', c');
    RequestKeyNeverExtends(p', c', p, c);
    if |Segments(key)| <= |Segments(key')| { ShorterKeyExtends(key, KindOf(r), i, key', KindOf(r'), i'); }
    else { ShorterKeyExtends(key', KindOf(r'), i', key, KindOf(r), i); }
    RequestKeysDiffer(p, c, p', c');
    IdsNeverCollide(uuid, key, r, r');
  }

  // ----- the plan --------------------------------------------------------------

  /** A hydrated service line; `details` stands for the columns copied unchanged. */
  datatype Line = Line(clientLineId: string, serviceType: string, asset: Option<string>, details: string)

  datatype OrderRow = OrderRow(id: string, serviceType: string)

  datatype LineRow = LineRow(id: string, orderId: string, line: Line, reservation: Option<string>)

  datatype AssetRow = AssetRow(id: string, asset: string, details: string)

  /** A reservation with the line id it is sorted by. */
  datatype KeyedAsset = KeyedAsset(row: AssetRow, clientLineId: string)

  datatype Plan = Plan(orders: seq<OrderRow>, lines: seq<LineRow>, assets: seq<AssetRow>)

  datatype Outcome = Built(plan: Plan) | Failed(problem: Problem)

  function OrderMaker(uuid: string -> string, key: string): string -> OrderRow {
    (t: string) => OrderRow(RowId(uuid, key, Order(t)), t)
  }

  function LineMaker(uuid: string -> string, key: string): Line -> LineRow {
    (l: Line) => LineRow(
        RowId(uuid, key, OrderLine(l.serviceType, l.clientLineId)),
        RowId(uuid, key, Order(l.serviceType)),
        l,
        if l.asset.Some? then Some(RowId(uuid, key, AssetReservation(l.serviceType, l.clientLineId))) else None)
  }

  function AssetMaker(uuid: string -> string, key: string): Line -> KeyedAsset {
    (l: Line) => KeyedAsset(
        AssetRow(RowId(uuid, key, AssetReservation(l.serviceType, l.clientLineId)),
                 if l.asset.Some? then l.asset.value else "",
                 l.details),
        l.clientLineId)
  }

  function RowOf(): KeyedAsset -> AssetRow { (k: KeyedAsset) => k.row }

  function ByClient(le: (string, string) -> bool): (Line, Line) -> bool {
    (a: Line, b: Line) => le(a.clientLineId, b.clientLineId)
  }

  function ByOrder(le: (string, string) -> bool): (OrderRow, OrderRow) -> bool {
    (a: OrderRow, b: OrderRow) => le(a.serviceType, b.serviceType)
  }

  function ByLineRow(le: (string, string) -> bool): (LineRow, LineRow) -> bool {
    (a: LineRow, b: LineRow) => le(a.line.clientLineId, b.line.clientLineId)
  }

  function ByKeyedAsset(le: (string, string) -> bool): (KeyedAsset, KeyedAsset) -> bool {
    (a: KeyedAsset, b: KeyedAsset) => le(a.clientLineId, b.clientLineId)
  }

  /** The service types in the order of their first line: the keys of an insertion-ordered map. */
  function Types(lines: seq<Line>): (ts: seq<string>)
    ensures forall i, j :: 0 <= i < j < |ts| ==> ts[i] != ts[j]
    ensures forall l :: l in lines ==> l.serviceType in ts
    ensures forall t :: t in ts ==> exists l :: l in lines && l.serviceType == t
  {
    if lines == [] then []
    else
      var before, last := Types(lines[..|lines| - 1]), lines[|lines| - 1];
      assert forall l :: l in lines ==> l in lines[..|lines| - 1] || l == last;
      assert last in lines && forall l :: l in lines[..|lines| - 1] ==> l in lines;
      if last.serviceType in before then before else before + [last.serviceType]
  }

  function Group(lines: seq<Line>, t: string): seq<Line> {
    if lines == [] then []
    else Group(lines[..|lines| - 1], t) + (if lines[|lines| - 1].serviceType == t then [lines[|lines| - 1]] else [])
  }

  /** Group after group. */
  function Grouped(types: seq<string>, lines: seq<Line>): seq<Line> {
    if types == [] then [] else Grouped(types[..|types| - 1], lines) + Group(lines, types[|types| - 1])
  }

  function WithAsset(lines: seq<Line>): seq<Line> {
    if lines == [] then []
    else WithAsset(lines[..|lines| - 1]) + (if lines[|lines| - 1].asset.Some? then [lines[|lines| - 1]] else [])
  }

  /** Lines by client line id, after grouping. */
  function SortedLines(le: (string, string) -> bool, lines: seq<Line>): seq<Line> {
    Sort(ByClient(le), Grouped(Types(lines), lines))
  }

  function SortedAssets(le: (string, string) -> bool, lines: seq<Line>): seq<Line> {
    Sort(ByClient(le), WithAsset(Grouped(Types(lines), lines)))
  }

  function PlanOf(uuid: string -> string, le: (string, string) -> bool, key: string, lines: seq<Line>): Plan {
    Plan(Map(OrderMaker(uuid, key), Sort(le, Types(lines))),
         Map(LineMaker(uuid, key), SortedLines(le, lines)),
         Map(RowOf(), Map(AssetMaker(uuid, key), SortedAssets(le, lines))))
  }

  function TrimLine(l: Line): Line { l.(clientLineId := Trim(l.clientLineId)) }

  function TrimLines(lines: seq<Line>): (r: seq<Line>)
    ensures |r| == |lines| && forall i :: 0 <= i < |r| ==> r[i] == TrimLine(lines[i])
  {
    seq(|lines|, i requires 0 <= i < |lines| => TrimLine(lines[i]))
  }

  ghost predicate UniqueIds(lines: seq<Line>) {
    forall i, j :: 0 <= i < j < |lines| ==> lines[i].clientLineId != lines[j].clientLineId
  }

  ghost predicate NonEmptyIds(lines: seq<Line>) { forall i :: 0 <= i < |lines| ==> lines[i].clientLineId != "" }

  ghost predicate NonEmptyTypes(lines: seq<Line>) { forall i :: 0 <= i < |lines| ==> lines[i].serviceType != "" }

  /** The validation loop: the first line without an id, or with an id seen before. */
  method CheckLineIds(lines: seq<Line>) returns (r: Option<Problem>)
    ensures r.None? <==> NonEmptyIds(lines) && UniqueIds(lines)
    ensures r.Some? ==>
              && (r.value.LineIdRequired? || r.value.LineIdNotUnique?) && r.value.at < |lines|
              && NonEmptyIds(lines[..r.value.at]) && UniqueIds(lines[..r.value.at])
              && (r.value.LineIdRequired? <==> lines[r.value.at].clientLineId == "")
  {
    var seen: set<string> := {};
    for i := 0 to |lines|
      invariant seen == set j | 0 <= j < i :: lines[j].clientLineId
      invariant NonEmptyIds(lines[..i]) && UniqueIds(lines[..i])
    {
      var id := lines[i].clientLineId;
      if id == "" { return Some(LineIdRequired(i)); }
      if id in seen {
        var j :| 0 <= j < i && lines[j].clientLineId == id;
        return Some(LineIdNotUnique(i));
      }
      seen := seen + {id};
    }
    assert lines[..|lines|] == lines;
    r := None;
  }

  lemma GroupingStep(lines: seq<Line>, i: nat)
    requires i < |lines|
    ensures Types(lines[..i + 1]) ==
            if lines[i].serviceType in Types(lines[..i]) then Types(lines[..i])
            else Types(lines[..i]) + [lines[i].serviceType]
    ensures forall t :: Group(lines[..i + 1], t) ==
                        Group(lines[..i], t) + (if lines[i].serviceType == t then [lines[i]] else [])
  {
    assert lines[..i + 1][..i] == lines[..i];
  }

  ghost predicate GroupedBy(lines: seq<Line>, types: seq<string>, groups: map<string, seq<Line>>) {
    && groups.Keys == (set t | t in types)
    && (forall t :: t in groups ==> groups[t] == Group(lines, t))
    && (forall t :: t !in groups ==> Group(lines, t) == [])
  }

  lemma OldTypeStep(lines: seq<Line>, i: nat, types: seq<string>, groups: map<string, seq<Line>>)
    requires i < |lines| && GroupedBy(lines[..i], types, groups) && lines[i].serviceType in types
    ensures var t := lines[i].serviceType;
            t in groups && GroupedBy(lines[..i + 1], types, groups[t := groups[t] + [lines[i]]])
  {
    hide Types, Group;
    GroupingStep(lines, i);
    assert lines[i].serviceType in groups.Keys;
  }

  lemma NewTypeStep(lines: seq<Line>, i: nat, types: seq<string>, groups: map<string, seq<Line>>)
    requires i < |lines| && GroupedBy(lines[..i], types, groups) && lines[i].serviceType !in types
    ensures var t := lines[i].serviceType;
            t !in groups && GroupedBy(lines[..i + 1], types + [t], groups[t := [lines[i]]])
  {
    hide Types, Group;
    GroupingStep(lines, i);
    var t := lines[i].serviceType;
    assert t !in groups.Keys;
    assert (set x | x in types + [t]) == (set x | x in types) + {t};
    assert Group(lines[..i], t) == [];
  }

  /** The grouping loop over an insertion-ordered map. */
  method GroupLines(lines: seq<Line>) returns (types: seq<string>, groups: map<string, seq<Line>>)
    ensures types == Types(lines) && GroupedBy(lines, types, groups)
  {
    types, groups := [], map[];
    assert GroupedBy(lines[..0], types, groups);
    hide Group, GroupedBy;
    for i := 0 to |lines|
      invariant types == Types(lines[..i]) && GroupedBy(lines[..i], types, groups)
    {
      var t := lines[i].serviceType;
      GroupingStep(lines, i);
      if t in types { OldTypeStep(lines, i, types, groups); } else { NewTypeStep(lines, i, types, groups); }
      if t in groups {
        groups := groups[t := groups[t] + [lines[i]]];
      } else {
        types := types + [t];
        groups := groups[t := [lines[i]]];
      }
    }
    assert lines[..|lines|] == lines;
  }

  lemma MapSnoc<A, B>(f: A -> B, xs: seq<A>, x: A)
    ensures Map(f, xs + [x]) == Map(f, xs) + [f(x)]
  {
  }

  lemma WithAssetSnoc(lines: seq<Line>, l: Line)
    ensures WithAsset(lines + [l]) == WithAsset(lines) + (if l.asset.Some? then [l] else [])
  {
    assert (lines + [l])[..|lines|] == lines;
  }

  lemma GroupedSnoc(types: seq<string>, i: nat, lines: seq<Line>)
    requires i < |types|
    ensures Grouped(types[..i + 1], lines) == Grouped(types[..i], lines) + Group(lines, types[i])
  {
    assert types[..i + 1][..i] == types[..i];
  }

  lemma LineIds(uuid: string -> string, key: string, l: Line)
    requires key != ""
    ensures var order := RowId(uuid, key, Order(l.serviceType));
            && PlanUuid(uuid, key, LineKind, order + ":" + l.clientLineId)
               == Id(RowId(uuid, key, OrderLine(l.serviceType, l.clientLineId)))
            && PlanUuid(uuid, key, AssetKind, order + ":" + l.clientLineId)
               == Id(RowId(uuid, key, AssetReservation(l.serviceType, l.clientLineId)))
  {
  }

  /** One order per service type, in map order. */
  method BuildOrders(uuid: string -> string, key: string, types: seq<string>) returns (r: seq<OrderRow>, problem: Option<Problem>)
    requires key != ""
    ensures problem.None? <==> "" !in types
    ensures problem.Some? ==> problem.value == IndexRequired
    ensures problem.None? ==> r == Map(OrderMaker(uuid, key), types)
  {
    r := [];
    for i := 0 to |types|
      invariant "" !in types[..i]
      invariant r == Map(OrderMaker(uuid, key), types[..i])
    {
      assert types[..i + 1] == types[..i] + [types[i]];
      match PlanUuid(uuid, key, OrderKind, types[i]) {
        case NoId(p) => return r, Some(p);
        case Id(id) =>
          MapSnoc(OrderMaker(uuid, key), types[..i], types[i]);
          r := r + [OrderRow(id, types[i])];
      }
    }
    assert types[..|types|] == types;
    problem := None;
  }

  /** The rows of one group, appended to what is already there. */
  method BuildGroup(uuid: string -> string, key: string, group: seq<Line>, ghost done: seq<Line>,
                    rows0: seq<LineRow>, assets0: seq<KeyedAsset>) returns (rows: seq<LineRow>, assets: seq<KeyedAsset>)
    requires key != ""
    requires rows0 == Map(LineMaker(uuid, key), done) && assets0 == Map(AssetMaker(uuid, key), WithAsset(done))
    ensures rows == Map(LineMaker(uuid, key), done + group) && assets == Map(AssetMaker(uuid, key), WithAsset(done + group))
  {
    hide WithAsset, RowId, PlanUuid, Map;
    rows, assets := rows0, assets0;
    assert done + group[..0] == done;
    for i := 0 to |group|
      invariant rows == Map(LineMaker(uuid, key), done + group[..i])
      invariant assets == Map(AssetMaker(uuid, key), WithAsset(done + group[..i]))
    {
      var l := group[i];
      LineIds(uuid, key, l);
      var order := RowId(uuid, key, Order(l.serviceType));
      var id := PlanUuid(uuid, key, LineKind, order + ":" + l.clientLineId).id;
      assert done + group[..i + 1] == (done + group[..i]) + [l];
      MapSnoc(LineMaker(uuid, key), done + group[..i], l);
      WithAssetSnoc(done + group[..i], l);
      if l.asset.Some? {
        var reservation := PlanUuid(uuid, key, AssetKind, order + ":" + l.clientLineId).id;
        MapSnoc(AssetMaker(uuid, key), WithAsset(done + group[..i]), l);
        assets := assets + [KeyedAsset(AssetRow(reservation, l.asset.value, l.details), l.clientLineId)];
        rows := rows + [LineRow(id, order, l, Some(reservation))];
      } else {
        assert WithAsset(done + group[..i]) + [] == WithAsset(done + group[..i]);
        rows := rows + [LineRow(id, order, l, None)];
      }
    }
    assert group[..|group|] == group;
  }

  lemma SortedRows(uuid: string -> string, le: (string, string) -> bool, key: string, types: seq<string>, lines: seq<Line>)
    ensures Sort(ByOrder(le), Map(OrderMaker(uuid, key), types)) == Map(OrderMaker(uuid, key), Sort(le, types))
    ensures Sort(ByLineRow(le), Map(LineMaker(uuid, key), lines)) == Map(LineMaker(uuid, key), Sort(ByClient(le), lines))
    ensures Sort(ByKeyedAsset(le), Map(AssetMaker(uuid, key), lines)) == Map(AssetMaker(uuid, key), Sort(ByClient(le), lines))
  {
    hide RowId;
    SortMap(OrderMaker(uuid, key), le, ByOrder(le), types);
    SortMap(LineMaker(uuid, key), ByClient(le), ByLineRow(le), lines);
    SortMap(AssetMaker(uuid, key), ByClient(le), ByKeyedAsset(le), lines);
  }

  lemma TypesEmptyExactly(lines: seq<Line>)
    ensures "" in Types(lines) <==> !NonEmptyTypes(lines)
  {
    if "" in Types(lines) {
      var l :| l in lines && l.serviceType == "";
    }
  }

  /** The row-building part of `buildAttachPlan`. */
  method BuildAttachPlan(uuid: string -> string, le: (string, string) -> bool, key: string, services: seq<Line>)
    returns (r: Outcome)
    ensures r.Built? <==> key != "" && NonEmptyIds(TrimLines(services)) && UniqueIds(TrimLines(services)) && NonEmptyTypes(services)
    ensures r.Built? ==> r.plan == PlanOf(uuid, le, key, TrimLines(services))
    ensures r == Failed(KeyRequired) <==> key == ""
  {
    hide NonEmptyIds, UniqueIds, NonEmptyTypes, Types, Group, Grouped, WithAsset, Sort, GroupedBy, PlanUuid, Map;
    if key == "" { return Failed(KeyRequired); }
    var lines := TrimLines(services);
    var bad := CheckLineIds(lines);
    if bad.Some? { return Failed(bad.value); }
    var types, groups := GroupLines(lines);
    var orders, noIndex := BuildOrders(uuid, key, types);
    TypesEmptyExactly(lines);
    SameTypes(services);
    if noIndex.Some? { return Failed(noIndex.value); }
    var rows: seq<LineRow>, assets: seq<KeyedAsset> := [], [];
    NothingYet(uuid, key, types, lines);
    for i := 0 to |types|
      invariant rows == Map(LineMaker(uuid, key), Grouped(types[..i], lines))
      invariant assets == Map(AssetMaker(uuid, key), WithAsset(Grouped(types[..i], lines)))
    {
      GroupFound(lines, types, groups, types[i]);
      GroupedSnoc(types, i, lines);
      rows, assets := BuildGroup(uuid, key, groups[types[i]], Grouped(types[..i], lines), rows, assets);
    }
    assert types[..|types|] == types;
    SortedRows(uuid, le, key, types, Grouped(types, lines));
    SortedRows(uuid, le, key, types, WithAsset(Grouped(types, lines)));
    r := Built(Plan(Sort(ByOrder(le), orders), Sort(ByLineRow(le), rows), Map(RowOf(), Sort(ByKeyedAsset(le), assets))));
  }

  lemma SameTypes(services: seq<Line>)
    ensures NonEmptyTypes(TrimLines(services)) <==> NonEmptyTypes(services)
  {
    assert forall i :: 0 <= i < |services| ==> TrimLines(services)[i].serviceType == services[i].serviceType;
  }

  lemma NothingYet(uuid: string -> string, key: string, types: seq<string>, lines: seq<Line>)
    ensures Map(LineMaker(uuid, key), Grouped(types[..0], lines)) == []
    ensures Map(AssetMaker(uuid, key), WithAsset(Grouped(types[..0], lines))) == []
  {
  }

  lemma GroupFound(lines: seq<Line>, types: seq<string>, groups: map<string, seq<Line>>, t: string)
    requires GroupedBy(lines, types, groups) && t in types
    ensures t in groups && groups[t] == Group(lines, t)
  {
  }

  // ----- nothing is lost in grouping and sorting -------------------------------

  lemma {:induction false} GroupCount(lines: seq<Line>, t: string, l: Line)
    ensures multiset(Group(lines, t))[l] == if l.serviceType == t then multiset(lines)[l] else 0
  {
    if lines != [] {
      GroupCount(lines[..|lines| - 1], t, l);
      assert lines == lines[..|lines| - 1] + [lines[|lines| - 1]];
    }
  }

  lemma {:induction false} GroupedCount(types: seq<string>, lines: seq<Line>, l: Line)
    requires forall i, j :: 0 <= i < j < |types| ==> types[i] != types[j]
    ensures multiset(Grouped(types, lines))[l] == if l.serviceType in types then multiset(lines)[l] else 0
  {
    if types != [] {
      var before, last := types[..|types| - 1], types[|types| - 1];
      GroupedCount(before, lines, l);
      GroupCount(lines, last, l);
      assert l.serviceType in types <==> l.serviceType in before || l.serviceType == last;
    }
  }

  /** Grouping by service type keeps every line, once. */
  lemma GroupingPermutes(lines: seq<Line>)
    ensures multiset(Grouped(Types(lines), lines)) == multiset(lines)
  {
    forall l ensures multiset(Grouped(Types(lines), lines))[l] == multiset(lines)[l] {
      GroupedCount(Types(lines), lines, l);
      assert l in multiset(lines) ==> l in lines;
    }
  }

  lemma {:induction false} AssetCount(lines: seq<Line>, l: Line)
    ensures multiset(WithAsset(lines))[l] == if l.asset.Some? then multiset(lines)[l] else 0
  {
    if lines != [] {
      AssetCount(lines[..|lines| - 1], l);
      assert lines == lines[..|lines| - 1] + [lines[|lines| - 1]];
    }
  }

  lemma AssetsPermute(xs: seq<Line>, ys: seq<Line>)
    requires multiset(xs) == multiset(ys)
    ensures multiset(WithAsset(xs)) == multiset(WithAsset(ys))
  {
    forall l ensures multiset(WithAsset(xs))[l] == multiset(WithAsset(ys))[l] {
      AssetCount(xs, l);
      AssetCount(ys, l);
    }
  }

  lemma TypesPermute(xs: seq<Line>, ys: seq<Line>)
    requires multiset(xs) == multiset(ys)
    ensures multiset(Types(xs)) == multiset(Types(ys))
  {
    forall t ensures multiset(Types(xs))[t] == multiset(Types(ys))[t] {
      DistinctCount(Types(xs), t);
      DistinctCount(Types(ys), t);
      assert forall l :: l in xs <==> l in multiset(xs);
      assert forall l :: l in ys <==> l in multiset(ys);
      assert t in Types(xs) <==> t in Types(ys);
    }
  }

  lemma {:induction false} DistinctCount(ts: seq<string>, t: string)
    requires forall i, j :: 0 <= i < j < |ts| ==> ts[i] != ts[j]
    ensures multiset(ts)[t] == if t in ts then 1 else 0
  {
    if ts != [] {
      DistinctCount(ts[..|ts| - 1], t);
      assert ts == ts[..|ts| - 1] + [ts[|ts| - 1]];
      assert ts[|ts| - 1] !in ts[..|ts| - 1];
    }
  }

  lemma ByClientIsPreorder(le: (string, string) -> bool)
    requires TotalPreorder(le)
    ensures TotalPreorder(ByClient(le))
  {
    var f := ByClient(le);
    assert forall a, b :: f(a, b) == le(a.clientLineId, b.clientLineId);
  }

  function LineOf(): LineRow -> Line { (r: LineRow) => r.line }

  /** A plan line carries its own id, the id of the order of its type, and a reservation exactly for an asset. */
  ghost predicate GoodLine(uuid: string -> string, key: string, p: Plan, r: LineRow) {
    && r.id == RowId(uuid, key, OrderLine(r.line.serviceType, r.line.clientLineId))
    && (exists o :: o in p.orders && o.id == r.orderId && o.serviceType == r.line.serviceType)
    && (r.reservation.Some? <==> r.line.asset.Some?)
    && (r.line.asset.Some? ==>
          exists a :: a in p.assets && r.reservation == Some(a.id) && r.line.asset == Some(a.asset) && a.details == r.line.details)
  }

  /** A reservation belongs to a plan line, for that line's asset. */
  ghost predicate GoodAsset(p: Plan, a: AssetRow) {
    exists r :: r in p.lines && r.reservation == Some(a.id) && r.line.asset == Some(a.asset) && a.details == r.line.details
  }

  ghost predicate GoodOrder(uuid: string -> string, key: string, lines: seq<Line>, o: OrderRow) {
    o.id == RowId(uuid, key, Order(o.serviceType)) && exists l :: l in lines && l.serviceType == o.serviceType
  }

  /**
   * Every line of the request is one line of the plan, and nothing else is: under the
   * order of its type, with a reservation of its own exactly when it has an asset.
   * Orders and reservations are there for some line.
   */
  lemma PlanIsComplete(uuid: string -> string, le: (string, string) -> bool, key: string, lines: seq<Line>)
    ensures var p := PlanOf(uuid, le, key, lines);
            && multiset(Map(LineOf(), p.lines)) == multiset(lines)
            && (forall r :: r in p.lines ==> GoodLine(uuid, key, p, r))
            && (forall a :: a in p.assets ==> GoodAsset(p, a))
            && (forall o :: o in p.orders ==> GoodOrder(uuid, key, lines, o))
            && |p.assets| == |WithAsset(lines)|
  {
    hide RowId, GoodLine, GoodAsset, GoodOrder, SortedLines, SortedAssets, WithAsset, Sort, Types;
    var p, sorted, assets := PlanOf(uuid, le, key, lines), SortedLines(le, lines), SortedAssets(le, lines);
    LinesAreKept(le, lines);
    LinesReadBack(uuid, key, sorted);
    assert |multiset(assets)| == |assets| && |multiset(WithAsset(lines))| == |WithAsset(lines)|;
    forall r | r in p.lines ensures GoodLine(uuid, key, p, r) { LineIsGood(uuid, le, key, lines, r); }
    forall a | a in p.assets ensures GoodAsset(p, a) { AssetIsGood(uuid, le, key, lines, a); }
    forall o | o in p.orders ensures GoodOrder(uuid, key, lines, o) { OrderIsGood(uuid, le, key, lines, o); }
  }

  lemma LinesReadBack(uuid: string -> string, key: string, sorted: seq<Line>)
    ensures Map(LineOf(), Map(LineMaker(uuid, key), sorted)) == sorted
  {
    hide RowId;
  }

  lemma LineIsGood(uuid: string -> string, le: (string, string) -> bool, key: string, lines: seq<Line>, r: LineRow)
    requires r in PlanOf(uuid, le, key, lines).lines
    ensures GoodLine(uuid, key, PlanOf(uuid, le, key, lines), r)
  {
    hide RowId, SortedLines, SortedAssets, Sort, Types;
    var p, sorted, assets, types := PlanOf(uuid, le, key, lines), SortedLines(le, lines), SortedAssets(le, lines), Sort(le, Types(lines));
    RowHasLine(uuid, key, sorted, r);
    HasOrder(le, lines, r.line);
    var k :| 0 <= k < |types| && types[k] == r.line.serviceType;
    assert p.orders[k] in p.orders;
    if r.line.asset.Some? {
      HasAsset(le, lines, r.line);
      var m :| 0 <= m < |assets| && assets[m] == r.line;
      assert p.assets[m] in p.assets;
    }
  }

  lemma AssetIsGood(uuid: string -> string, le: (string, string) -> bool, key: string, lines: seq<Line>, a: AssetRow)
    requires a in PlanOf(uuid, le, key, lines).assets
    ensures GoodAsset(PlanOf(uuid, le, key, lines), a)
  {
    hide RowId, SortedLines, SortedAssets, Sort, Types;
    var p, sorted, assets := PlanOf(uuid, le, key, lines), SortedLines(le, lines), SortedAssets(le, lines);
    var k :| 0 <= k < |p.assets| && p.assets[k] == a;
    var l := assets[k];
    AssetHasLine(le, lines, l);
    var m :| 0 <= m < |sorted| && sorted[m] == l;
    assert p.lines[m] == LineMaker(uuid, key)(l) && p.lines[m] in p.lines;
  }

  lemma AssetHasLine(le: (string, string) -> bool, lines: seq<Line>, l: Line)
    requires l in SortedAssets(le, lines)
    ensures l.asset.Some? && l in SortedLines(le, lines)
  {
    hide SortedLines, SortedAssets, WithAsset;
    LinesAreKept(le, lines);
    AssetCount(lines, l);
    assert l in multiset(SortedAssets(le, lines));
    assert l in multiset(SortedLines(le, lines));
  }

  lemma OrderIsGood(uuid: string -> string, le: (string, string) -> bool, key: string, lines: seq<Line>, o: OrderRow)
    requires o in PlanOf(uuid, le, key, lines).orders
    ensures GoodOrder(uuid, key, lines, o)
  {
    hide RowId, SortedLines, SortedAssets, Sort;
    var types := Sort(le, Types(lines));
    SortPermutes(le, Types(lines));
    var k :| 0 <= k < |types| && PlanOf(uuid, le, key, lines).orders[k] == o;
    assert types[k] in multiset(types);
    assert types[k] in Types(lines);
  }

  /** The rows of a plan ascend: orders by service type, lines by client line id. */
  lemma PlanAscends(uuid: string -> string, le: (string, string) -> bool, key: string, lines: seq<Line>, i: nat, j: nat)
    requires TotalPreorder(le) && i < j
    ensures var p := PlanOf(uuid, le, key, lines);
            && (j < |p.orders| ==> le(p.orders[i].serviceType, p.orders[j].serviceType))
            && (j < |p.lines| ==> le(p.lines[i].line.clientLineId, p.lines[j].line.clientLineId))
  {
    hide RowId, Sort, Types, TotalPreorder, Grouped, WithAsset;
    var p := PlanOf(uuid, le, key, lines);
    ByClientIsPreorder(le);
    SortSorts(le, Types(lines));
    SortSorts(ByClient(le), Grouped(Types(lines), lines));
    if j < |p.lines| {
      var sorted := SortedLines(le, lines);
      assert ByClient(le)(sorted[i], sorted[j]);
    }
  }

  lemma RowHasLine(uuid: string -> string, key: string, sorted: seq<Line>, r: LineRow)
    requires r in Map(LineMaker(uuid, key), sorted)
    ensures r.line in sorted && r == LineMaker(uuid, key)(r.line)
  {
  }

  lemma LinesAreKept(le: (string, string) -> bool, lines: seq<Line>)
    ensures multiset(SortedLines(le, lines)) == multiset(lines)
    ensures multiset(SortedAssets(le, lines)) == multiset(WithAsset(lines))
  {
    GroupingPermutes(lines);
    SortPermutes(ByClient(le), Grouped(Types(lines), lines));
    SortPermutes(ByClient(le), WithAsset(Grouped(Types(lines), lines)));
    AssetsPermute(Grouped(Types(lines), lines), lines);
  }

  lemma HasOrder(le: (string, string) -> bool, lines: seq<Line>, l: Line)
    requires l in SortedLines(le, lines)
    ensures l.serviceType in Sort(le, Types(lines))
  {
    LinesAreKept(le, lines);
    SortPermutes(le, Types(lines));
    assert l in multiset(SortedLines(le, lines));
    assert l in multiset(lines);
    assert l.serviceType in multiset(Types(lines));
    assert l.serviceType in multiset(Sort(le, Types(lines)));
  }

  lemma HasAsset(le: (string, string) -> bool, lines: seq<Line>, l: Line)
    requires l in SortedLines(le, lines) && l.asset.Some?
    ensures l in SortedAssets(le, lines)
  {
    LinesAreKept(le, lines);
    AssetCount(lines, l);
    assert l in multiset(SortedLines(le, lines));
    assert multiset(SortedAssets(le, lines))[l] > 0;
  }

  // ----- the order of the request ----------------------------------------------

  /** Different lines have ids that compare as different, and so have different service types. */
  ghost predicate NoPlanTies(le: (string, string) -> bool, lines: seq<Line>) {
    NoTies(ByClient(le), lines) && NoTies(le, Types(lines))
  }

  ghost predicate OrderFree(uuid: string -> string, le: (string, string) -> bool, key: string, lines: seq<Line>) {
    forall p: seq<Line> :: multiset(p) == multiset(lines) ==> PlanOf(uuid, le, key, p) == PlanOf(uuid, le, key, lines)
  }

  lemma NoTiesWithin<T>(le: (T, T) -> bool, xs: seq<T>, ys: seq<T>)
    requires NoTies(le, xs) && multiset(ys) <= multiset(xs)
    ensures NoTies(le, ys)
  {
    forall i, j | 0 <= i < |ys| && 0 <= j < |ys| && Tie(le, ys[i], ys[j]) ensures ys[i] == ys[j] {
      assert ys[i] in multiset(ys) && ys[j] in multiset(ys);
      assert ys[i] in xs && ys[j] in xs;
    }
  }

  lemma AssetsWithin(lines: seq<Line>)
    ensures multiset(WithAsset(lines)) <= multiset(lines)
  {
    forall l ensures multiset(WithAsset(lines))[l] <= multiset(lines)[l] { AssetCount(lines, l); }
  }

  lemma NoTiesOrderFree(uuid: string -> string, le: (string, string) -> bool, key: string, lines: seq<Line>, p: seq<Line>)
    requires TotalPreorder(le) && NoPlanTies(le, lines) && multiset(p) == multiset(lines)
    ensures PlanOf(uuid, le, key, p) == PlanOf(uuid, le, key, lines)
  {
    hide TotalPreorder, NoTies, Sort, Map, Types, Grouped, WithAsset, ByClient;
    ByClientIsPreorder(le);
    TypesPermute(lines, p);
    SortForgetsOrder(le, Types(lines), Types(p));
    var g, g' := Grouped(Types(lines), lines), Grouped(Types(p), p);
    GroupingPermutes(lines);
    GroupingPermutes(p);
    NoTiesWithin(ByClient(le), lines, g);
    SortForgetsOrder(ByClient(le), g, g');
    AssetsPermute(g, g');
    AssetsWithin(g);
    NoTiesWithin(ByClient(le), lines, WithAsset(g));
    SortForgetsOrder(ByClient(le), WithAsset(g), WithAsset(g'));
  }

  function ToFront(lines: seq<Line>, i: nat): seq<Line>
    requires i < |lines|
  {
    [lines[i]] + lines[..i] + lines[i + 1..]
  }

  lemma ToFrontPermutes(lines: seq<Line>, i: nat)
    requires i < |lines|
    ensures multiset(ToFront(lines, i)) == multiset(lines)
  {
    assert lines == lines[..i] + [lines[i]] + lines[i + 1..];
  }

  lemma {:induction false} FirstTypeFirst(lines: seq<Line>)
    requires lines != []
    ensures Types(lines) != [] && Types(lines)[0] == lines[0].serviceType
  {
    if |lines| > 1 { FirstTypeFirst(lines[..|lines| - 1]); }
  }

  lemma {:induction false} FirstOfGroup(lines: seq<Line>)
    requires lines != []
    ensures Group(lines, lines[0].serviceType) != [] && Group(lines, lines[0].serviceType)[0] == lines[0]
  {
    if |lines| > 1 { FirstOfGroup(lines[..|lines| - 1]); }
  }

  lemma {:induction false} FirstGrouped(types: seq<string>, lines: seq<Line>)
    requires lines != [] && types != [] && types[0] == lines[0].serviceType
    ensures Grouped(types, lines) != [] && Grouped(types, lines)[0] == lines[0]
  {
    if |types| > 1 {
      FirstGrouped(types[..|types| - 1], lines);
    } else {
      FirstOfGroup(lines);
    }
  }

  lemma LinesFromRows(uuid: string -> string, key: string, xs: seq<Line>, ys: seq<Line>)
    requires Map(LineMaker(uuid, key), xs) == Map(LineMaker(uuid, key), ys)
    ensures xs == ys
  {
    var f := LineMaker(uuid, key);
    assert |Map(f, xs)| == |Map(f, ys)|;
    forall i | 0 <= i < |xs| ensures xs[i] == ys[i] {
      assert Map(f, xs)[i].line == xs[i] && Map(f, ys)[i].line == ys[i];
    }
  }

  lemma TypesFromRows(uuid: string -> string, key: string, xs: seq<string>, ys: seq<string>)
    requires Map(OrderMaker(uuid, key), xs) == Map(OrderMaker(uuid, key), ys)
    ensures xs == ys
  {
    var f := OrderMaker(uuid, key);
    assert |Map(f, xs)| == |Map(f, ys)|;
    forall i | 0 <= i < |xs| ensures xs[i] == ys[i] {
      assert Map(f, xs)[i].serviceType == xs[i] && Map(f, ys)[i].serviceType == ys[i];
    }
  }

  lemma TiedLinesShow(uuid: string -> string, le: (string, string) -> bool, key: string, p: seq<Line>, q: seq<Line>)
    requires TotalPreorder(le) && p != [] && q != [] && p[0] != q[0] && Tie(ByClient(le), p[0], q[0])
    ensures PlanOf(uuid, le, key, p) != PlanOf(uuid, le, key, q)
  {
    hide TotalPreorder, Sort, Map, Types, Grouped, Tie, ByClient;
    ByClientIsPreorder(le);
    FirstTypeFirst(p);
    FirstTypeFirst(q);
    FirstGrouped(Types(p), p);
    FirstGrouped(Types(q), q);
    SortShowsOrder(ByClient(le), Grouped(Types(p), p), Grouped(Types(q), q));
    if PlanOf(uuid, le, key, p) == PlanOf(uuid, le, key, q) {
      LinesFromRows(uuid, key, SortedLines(le, p), SortedLines(le, q));
    }
  }

  lemma TiedTypesShow(uuid: string -> string, le: (string, string) -> bool, key: string, p: seq<Line>, q: seq<Line>)
    requires TotalPreorder(le) && p != [] && q != []
    requires p[0].serviceType != q[0].serviceType && Tie(le, p[0].serviceType, q[0].serviceType)
    ensures PlanOf(uuid, le, key, p) != PlanOf(uuid, le, key, q)
  {
    hide TotalPreorder, Sort, Map, Types, Grouped, Tie;
    FirstTypeFirst(p);
    FirstTypeFirst(q);
    SortShowsOrder(le, Types(p), Types(q));
    if PlanOf(uuid, le, key, p) == PlanOf(uuid, le, key, q) {
      TypesFromRows(uuid, key, Sort(le, Types(p)), Sort(le, Types(q)));
    }
  }

  lemma TypeHasLine(lines: seq<Line>, t: string) returns (i: nat)
    requires t in Types(lines)
    ensures i < |lines| && lines[i].serviceType == t
  {
    var l :| l in lines && l.serviceType == t;
    i :| 0 <= i < |lines| && lines[i] == l;
  }

  lemma TieShows(uuid: string -> string, le: (string, string) -> bool, key: string, lines: seq<Line>, i: nat, j: nat)
    requires TotalPreorder(le) && i < |lines| && j < |lines| && OrderFree(uuid, le, key, lines)
    ensures Tie(ByClient(le), lines[i], lines[j]) ==> lines[i] == lines[j]
    ensures Tie(le, lines[i].serviceType, lines[j].serviceType) ==> lines[i].serviceType == lines[j].serviceType
  {
    hide TotalPreorder, PlanOf, Tie, ByClient;
    var p, q := ToFront(lines, i), ToFront(lines, j);
    ToFrontPermutes(lines, i);
    ToFrontPermutes(lines, j);
    assert PlanOf(uuid, le, key, p) == PlanOf(uuid, le, key, lines);
    assert PlanOf(uuid, le, key, q) == PlanOf(uuid, le, key, lines);
    if Tie(ByClient(le), lines[i], lines[j]) && lines[i] != lines[j] { TiedLinesShow(uuid, le, key, p, q); }
    if Tie(le, lines[i].serviceType, lines[j].serviceType) && lines[i].serviceType != lines[j].serviceType {
      TiedTypesShow(uuid, le, key, p, q);
    }
  }

  /**
   * Retries may list the lines in any order: the whole plan, ids and row order,
   * is the same for every order of the same lines exactly when no two different
   * client line ids, and no two different service types, tie in the comparator.
   */
  lemma OrderFreeExactly(uuid: string -> string, le: (string, string) -> bool, key: string, lines: seq<Line>)
    requires TotalPreorder(le)
    ensures OrderFree(uuid, le, key, lines) <==> NoPlanTies(le, lines)
  {
    hide TotalPreorder, PlanOf, Tie, ByClient, Types;
    if NoPlanTies(le, lines) {
      forall p: seq<Line> | multiset(p) == multiset(lines) ensures PlanOf(uuid, le, key, p) == PlanOf(uuid, le, key, lines) {
        NoTiesOrderFree(uuid, le, key, lines, p);
      }
    }
    if OrderFree(uuid, le, key, lines) {
      forall i, j | 0 <= i < |lines| && 0 <= j < |lines| && Tie(ByClient(le), lines[i], lines[j]) ensures lines[i] == lines[j] {
        TieShows(uuid, le, key, lines, i, j);
      }
      var ts := Types(lines);
      forall i, j | 0 <= i < |ts| && 0 <= j < |ts| && Tie(le, ts[i], ts[j]) ensures ts[i] == ts[j] {
        var a := TypeHasLine(lines, ts[i]);
        var b := TypeHasLine(lines, ts[j]);
        TieShows(uuid, le, key, lines, a, b);
      }
    }
  }

  // ----- the ids of one plan ---------------------------------------------------

  /** Inside one plan with unique line ids, rows in different places have different ids. */
  lemma PlanIdsDiffer(uuid: string -> string, le: (string, string) -> bool, key: string, lines: seq<Line>, i: nat, j: nat)
    requires UuidLike(uuid) && UniqueIds(lines)
    ensures var p := PlanOf(uuid, le, key, lines);
            && (i < j < |p.orders| ==> p.orders[i].id != p.orders[j].id)
            && (i < j < |p.lines| ==> p.lines[i].id != p.lines[j].id)
            && (i < j < |p.assets| ==> p.assets[i].id != p.assets[j].id)
            && (i < |p.orders| && j < |p.lines| ==> p.orders[i].id != p.lines[j].id)
            && (i < |p.orders| && j < |p.assets| ==> p.orders[i].id != p.assets[j].id)
            && (i < |p.lines| && j < |p.assets| ==> p.lines[i].id != p.assets[j].id)
  {
    hide RowId, UuidLike, UniqueIds;
    var p := PlanOf(uuid, le, key, lines);
    var types, rows, assets := Sort(le, Types(lines)), SortedLines(le, lines), SortedAssets(le, lines);
    SortedDistinct(le, lines, i, j);
    if i < j < |p.orders| && p.orders[i].id == p.orders[j].id { IdsNeverCollide(uuid, key, Order(types[i]), Order(types[j])); }
    if i < j < |p.lines| && p.lines[i].id == p.lines[j].id {
      IdsNeverCollide(uuid, key, OrderLine(rows[i].serviceType, rows[i].clientLineId), OrderLine(rows[j].serviceType, rows[j].clientLineId));
    }
    if i < j < |p.assets| && p.assets[i].id == p.assets[j].id {
      IdsNeverCollide(uuid, key, AssetReservation(assets[i].serviceType, assets[i].clientLineId),
                      AssetReservation(assets[j].serviceType, assets[j].clientLineId));
    }
    if i < |p.orders| && j < |p.lines| && p.orders[i].id == p.lines[j].id {
      IdsNeverCollide(uuid, key, Order(types[i]), OrderLine(rows[j].serviceType, rows[j].clientLineId));
    }
    if i < |p.orders| && j < |p.assets| && p.orders[i].id == p.assets[j].id {
      IdsNeverCollide(uuid, key, Order(types[i]), AssetReservation(assets[j].serviceType, assets[j].clientLineId));
    }
    if i < |p.lines| && j < |p.assets| && p.lines[i].id == p.assets[j].id {
      IdsNeverCollide(uuid, key, OrderLine(rows[i].serviceType, rows[i].clientLineId),
                      AssetReservation(assets[j].serviceType, assets[j].clientLineId));
    }
  }

  lemma SortedDistinct(le: (string, string) -> bool, lines: seq<Line>, i: nat, j: nat)
    requires UniqueIds(lines)
    ensures i < j < |Sort(le, Types(lines))| ==> Sort(le, Types(lines))[i] != Sort(le, Types(lines))[j]
    ensures i < j < |SortedLines(le, lines)| ==> SortedLines(le, lines)[i].clientLineId != SortedLines(le, lines)[j].clientLineId
    ensures i < j < |SortedAssets(le, lines)| ==> SortedAssets(le, lines)[i].clientLineId != SortedAssets(le, lines)[j].clientLineId
  {
    hide Types, SortedLines, SortedAssets, Sort;
    SortPermutes(le, Types(lines));
    LinesAreKept(le, lines);
    AssetsWithin(lines);
    if i < j < |Sort(le, Types(lines))| { DistinctByCount(Types(lines), Sort(le, Types(lines)), i, j); }
    if i < j < |SortedLines(le, lines)| { UniqueByCount(lines, SortedLines(le, lines), i, j); }
    if i < j < |SortedAssets(le, lines)| { UniqueByCount(lines, SortedAssets(le, lines), i, j); }
  }

  lemma TwoPlaces<T>(ys: seq<T>, i: nat, j: nat)
    requires i < j < |ys| && ys[i] == ys[j]
    ensures multiset(ys)[ys[i]] >= 2
  {
    assert ys == ys[..j] + [ys[j]] + ys[j + 1..];
    assert ys[i] in ys[..j];
  }

  lemma DistinctByCount(xs: seq<string>, ys: seq<string>, i: nat, j: nat)
    requires forall a, b :: 0 <= a < b < |xs| ==> xs[a] != xs[b]
    requires multiset(ys) == multiset(xs) && i < j < |ys|
    ensures ys[i] != ys[j]
  {
    DistinctCount(xs, ys[i]);
    if ys[i] == ys[j] { TwoPlaces(ys, i, j); }
  }

  lemma {:induction false} UniqueLineCount(xs: seq<Line>, l: Line)
    requires UniqueIds(xs)
    ensures multiset(xs)[l] <= 1
  {
    if xs != [] {
      var last := xs[|xs| - 1];
      UniqueLineCount(xs[..|xs| - 1], l);
      assert xs == xs[..|xs| - 1] + [last];
      assert last !in xs[..|xs| - 1];
    }
  }

  lemma UniqueByCount(xs: seq<Line>, ys: seq<Line>, i: nat, j: nat)
    requires UniqueIds(xs) && multiset(ys) <= multiset(xs) && i < j < |ys|
    ensures ys[i].clientLineId != ys[j].clientLineId
  {
    UniqueLineCount(xs, ys[i]);
    if ys[i] == ys[j] {
      TwoPlaces(ys, i, j);
    } else {
      assert ys[i] in multiset(ys) && ys[j] in multiset(ys);
      assert ys[i] in multiset(xs) && ys[j] in multiset(xs);
      assert ys[i] in xs && ys[j] in xs;
    }
  }
}
