/**
 * From a database raise to the wire: extracting the code, mapping it to an
 * application error, and building the body. The registry (known codes, status
 * table, curated copy) and the leak detector are parameters.
 */
module ErrorPipeline {
  import opened Common

  datatype Copy = Copy(title: string, detail: Option<string>)

  datatype Registry = Registry(
    known: set<string>,
    status: map<string, nat>,
    copy: map<string, Copy>,
    leaky: string -> bool)

  datatype Field = Field(field: string, code: string, message: string)

  datatype AppError = AppError(
    code: string,
    status: nat,
    detail: Option<string>,
    fields: Option<seq<Field>>,
    docsUrl: Option<string>,
    retryAfter: Option<nat>,
    serverVersion: Option<string>,
    clientVersion: Option<string>)

  datatype Wire = Wire(
    code: string,
    title: string,
    status: nat,
    traceId: string,
    detail: Option<string>,
    fields: Option<seq<Field>>,
    docsUrl: Option<string>,
    retryAfter: Option<nat>,
    serverVersion: Option<string>,
    clientVersion: Option<string>,
    message: string)

  function UnknownCode(): string { "unknown.server_error" }

  function VersionConflict(): string { "planning.version_conflict" }

  function Plain(code: string, status: nat): AppError { AppError(code, status, None, None, None, None, None, None) }

  // ----- extractCode -----------------------------------------------------------

  /** The length of the leading run of `[a-z0-9_]`. */
  function Run(s: string): (n: nat)
    ensures n <= |s| && (forall i :: 0 <= i < n ==> IsWordChar(s[i]))
    ensures n < |s| ==> !IsWordChar(s[n])
  {
    if s == [] || !IsWordChar(s[0]) then 0 else 1 + Run(s[1..])
  }

  /** The leading match of `[a-z_][a-z0-9_]*\.[a-z0-9_]+`. */
  function ExtractCode(message: string): Option<string> {
    var n := Run(message);
    if n == 0 || IsDigit(message[0]) || n == |message| || message[n] != '.' then None
    else
      var k := Run(message[n + 1..]);
      if k == 0 then None else Some(message[..n + 1 + k])
  }

  predicate IsWord(s: string) { s != [] && forall i :: 0 <= i < |s| ==> IsWordChar(s[i]) }

  predicate IsTwoSegment(c: string) {
    exists d :: 0 < d < |c| && c[d] == '.' && IsWord(c[..d]) && IsWord(c[d + 1..]) && !IsDigit(c[0])
  }

  /** A raise tail: nothing, or something that cannot continue the code. */
  predicate IsTail(t: string) { t == [] || !IsWordChar(t[0]) }

  lemma RunOfWord(w: string, rest: string)
    requires IsWord(w) && IsTail(rest)
    ensures Run(w + rest) == |w|
  {
    var s := w + rest;
    assert forall i :: 0 <= i < |w| ==> s[i] == w[i];
    if rest != [] { assert s[|w|] == rest[0]; }
  }

  lemma ExtractParts(h: string, t: string, tail: string)
    requires IsWord(h) && IsWord(t) && !IsDigit(h[0]) && IsTail(tail)
    ensures ExtractCode(h + (['.'] + (t + tail))) == Some(h + (['.'] + t))
  {
    var m := h + (['.'] + (t + tail));
    RunOfWord(h, ['.'] + (t + tail));
    RunOfWord(t, tail);
    hide IsWord, Run, IsTail;
    assert m[|h|] == '.' && m[0] == h[0];
    assert m[|h| + 1..] == t + tail;
    assert m[..|h| + 1 + |t|] == h + (['.'] + t);
  }

  lemma ExtractForward(c: string, tail: string)
    requires IsTwoSegment(c) && IsTail(tail)
    ensures ExtractCode(c + tail) == Some(c)
  {
    var d :| 0 < d < |c| && c[d] == '.' && IsWord(c[..d]) && IsWord(c[d + 1..]) && !IsDigit(c[0]);
    hide IsWord, IsTail, ExtractCode;
    var h, t := c[..d], c[d + 1..];
    assert c == h + (['.'] + t);
    assert c + tail == h + (['.'] + (t + tail));
    ExtractParts(h, t, tail);
  }

  lemma ExtractBackward(message: string)
    requires ExtractCode(message).Some?
    ensures var c := ExtractCode(message).value;
            IsTwoSegment(c) && c <= message && IsTail(message[|c|..])
  {
    var n := Run(message);
    var k := Run(message[n + 1..]);
    var c := message[..n + 1 + k];
    assert c[n] == '.' && c[..n] == message[..n] && c[n + 1..] == message[n + 1..][..k];
    assert IsWord(c[..n]) && IsWord(c[n + 1..]);
  }

  /** A code is extracted exactly from the messages that are that two-segment code followed by a tail. */
  lemma ExtractExactly(message: string, c: string)
    ensures ExtractCode(message) == Some(c) <==> IsTwoSegment(c) && c <= message && IsTail(message[|c|..])
  {
    if ExtractCode(message) == Some(c) { ExtractBackward(message); }
    if IsTwoSegment(c) && c <= message && IsTail(message[|c|..]) {
      assert message == c + message[|c|..];
      ExtractForward(c, message[|c|..]);
    }
  }

  /** Codes with three segments are never extracted: only their first two are. */
  lemma ThreeSegmentsNeverExtracted(c: string, last: string, tail: string)
    requires IsTwoSegment(c)
    ensures ExtractCode(c + "." + last + tail) == Some(c)
    ensures !IsTwoSegment(c + "." + last)
  {
    hide ExtractCode, IsTwoSegment;
    assert c + "." + last + tail == c + ("." + last + tail);
    ExtractForward(c, "." + last + tail);
    LongerIsNotTwoSegment(c, "." + last);
    assert c + "." + last == c + ("." + last);
  }

  lemma LongerIsNotTwoSegment(c: string, tail: string)
    requires IsTwoSegment(c) && IsTail(tail) && tail != ""
    ensures !IsTwoSegment(c + tail)
  {
    hide ExtractCode, IsTwoSegment;
    ExtractForward(c, tail);
    assert (c + tail) + [] == c + tail;
    if IsTwoSegment(c + tail) { ExtractForward(c + tail, []); }
  }

  // ----- mapRpcErrorToAppError -------------------------------------------------

  /** `versions` stands for parsing the raise detail; it answers nothing on malformed text. */
  datatype Raise = Raise(message: string, details: Option<string>)

  type VersionParser = string -> (Option<string>, Option<string>)

  /** The statuses the mapping has a branch for; any other becomes 400. */
  predicate Handled(status: nat) { status in {400, 404, 409, 422, 500, 503} }

  function TableStatus(reg: Registry, code: string): nat { if code in reg.status then reg.status[code] else 400 }

  /** The error of a recognised code. Its tail is not an argument. */
  function RegisteredError(reg: Registry, versions: VersionParser, code: string, details: Option<string>): AppError {
    var status := TableStatus(reg, code);
    if status == 409 && code == VersionConflict() then
      (if details.Some? && details.value != ""
       then Plain(code, 409).(serverVersion := versions(details.value).0, clientVersion := versions(details.value).1)
       else Plain(code, 409))
    else if Handled(status) then Plain(code, status)
    else Plain(code, 400)
  }

  function MapRpcError(reg: Registry, versions: VersionParser, error: Option<Raise>, fallback: string): AppError {
    match error
    case None => Plain(fallback, 500)
    case Some(raise) =>
      if Recognised(reg, raise.message) then RegisteredError(reg, versions, ExtractCode(raise.message).value, raise.details)
      else Plain(fallback, 500).(detail := if raise.message == "" then None else Some(raise.message))
  }

  predicate Recognised(reg: Registry, message: string) {
    ExtractCode(message).Some? && ExtractCode(message).value in reg.known
  }

  // ----- buildBody -------------------------------------------------------------

  /** The curated copy of a code; codes without one get that of the unknown error. */
  function Lookup(reg: Registry, code: string): Copy {
    if code in reg.copy then reg.copy[code]
    else if UnknownCode() in reg.copy then reg.copy[UnknownCode()]
    else Copy("", None)
  }

  /** A code with a curated copy gets it; one without gets that of the unknown error. */
  lemma LookupExactly(reg: Registry, code: string)
    ensures code in reg.copy ==> Lookup(reg, code) == reg.copy[code]
    ensures code !in reg.copy && UnknownCode() in reg.copy ==> Lookup(reg, code) == reg.copy[UnknownCode()]
  {
    hide UnknownCode;
  }

  function Scrub(reg: Registry, text: Option<string>): Option<string> {
    if text.Some? && text.value != "" && reg.leaky(text.value) then None else text
  }

  predicate IsAlnum(c: char): (r: bool)
    ensures r <==> 97 <= c as int <= 122 || 65 <= c as int <= 90 || 48 <= c as int <= 57
  {
    'a' <= c <= 'z' || 'A' <= c <= 'Z' || '0' <= c <= '9'
  }

  /** Runs of other characters become one underscore, the rest upper case. */
  function Shout(code: string, gap: bool): string {
    if code == [] then []
    else if IsAlnum(code[0]) then [UpperChar(code[0])] + Shout(code[1..], false)
    else (if gap then [] else ['_']) + Shout(code[1..], true)
  }

  predicate AllAlnum(s: string) { forall i :: 0 <= i < |s| ==> IsAlnum(s[i]) }

  predicate NoAlnum(s: string) { forall i :: 0 <= i < |s| ==> !IsAlnum(s[i]) }

  lemma {:induction false} ShoutWord(word: string, rest: string, gap: bool)
    requires AllAlnum(word) && word != []
    ensures Shout(word + rest, gap) == Upper(word) + Shout(rest, false)
  {
    assert (word + rest)[1..] == word[1..] + rest;
    if |word| > 1 {
      ShoutWord(word[1..], rest, false);
    } else {
      assert word[1..] + rest == rest;
    }
  }

  lemma {:induction false} ShoutGap(sep: string, rest: string)
    requires NoAlnum(sep) && (rest == [] || IsAlnum(rest[0]))
    ensures Shout(sep + rest, true) == Shout(rest, false)
  {
    if sep == [] {
      assert sep + rest == rest;
    } else {
      assert (sep + rest)[1..] == sep[1..] + rest;
      ShoutGap(sep[1..], rest);
    }
  }

  /** The placeholder, run by run: a word goes to upper case, what separates two words to one underscore. */
  lemma ShoutRuns(word: string, sep: string, rest: string)
    requires AllAlnum(word) && NoAlnum(sep) && sep != [] && (rest == [] || IsAlnum(rest[0]))
    ensures Shout([], false) == [] && (word != [] ==> Shout(word, false) == Upper(word))
    ensures Shout(word + (sep + rest), false) == Upper(word) + (['_'] + Shout(rest, false))
  {
    assert (sep + rest)[1..] == sep[1..] + rest;
    ShoutGap(sep[1..], rest);
    if word == [] {
      assert word + (sep + rest) == sep + rest;
    } else {
      ShoutWord(word, sep + rest, false);
      ShoutWord(word, [], false);
      assert word + [] == word;
    }
  }

  function CleanField(reg: Registry, f: Field): Field {
    if Scrub(reg, Some(f.message)).Some? then f
    else f.(message := if f.code == "" then "INVALID" else Shout(f.code, false))
  }

  function CleanFields(reg: Registry, fields: seq<Field>): (r: seq<Field>)
    ensures |r| == |fields| && forall i :: 0 <= i < |r| ==> r[i] == CleanField(reg, fields[i])
  {
    seq(|fields|, i requires 0 <= i < |fields| => CleanField(reg, fields[i]))
  }

  /** The body an error must produce, stated field by field. */
  ghost predicate IsBodyOf(reg: Registry, e: AppError, traceId: string, w: Wire) {
    var known := e.code in reg.known;
    var code := if known then e.code else UnknownCode();
    var override := if known then Scrub(reg, e.detail) else None;
    && w.code == code
    && w.status == (if known then e.status else 500)
    && w.traceId == traceId
    && w.title == Lookup(reg, code).title
    && w.detail == (if override.Some? then override else Lookup(reg, code).detail)
    && w.fields == (if e.fields.Some? then Some(CleanFields(reg, e.fields.value)) else None)
    && w.docsUrl == e.docsUrl && w.retryAfter == e.retryAfter
    && w.serverVersion == e.serverVersion && w.clientVersion == e.clientVersion
    && w.message == (if w.detail.Some? then w.detail.value else w.title)
  }

  /** `buildBody` as `fromAppError` calls it: the body is filled field by field. */
  method BuildBody(reg: Registry, e: AppError, traceId: string) returns (body: Wire)
    ensures IsBodyOf(reg, e, traceId, body)
  {
    hide Lookup, CleanFields, UnknownCode;
    var code, override, status := e.code, e.detail, e.status;
    if code !in reg.known { code, override, status := UnknownCode(), None, 500; }
    var copy := Lookup(reg, code);
    body := Wire(code, copy.title, status, traceId, None, None, None, None, None, None, "");
    var safe := Scrub(reg, override);
    var detail := if safe.Some? then safe else copy.detail;
    if detail.Some? { body := body.(detail := detail); }
    if e.fields.Some? { body := body.(fields := Some(CleanFields(reg, e.fields.value))); }
    if e.docsUrl.Some? { body := body.(docsUrl := e.docsUrl); }
    if e.retryAfter.Some? { body := body.(retryAfter := e.retryAfter); }
    if e.serverVersion.Some? { body := body.(serverVersion := e.serverVersion); }
    if e.clientVersion.Some? { body := body.(clientVersion := e.clientVersion); }
    body := body.(message := if body.detail.Some? then body.detail.value else body.title);
  }

  /** The body is determined by the error and the trace id. */
  lemma BodyIsDetermined(reg: Registry, e: AppError, traceId: string, w: Wire, w': Wire)
    requires IsBodyOf(reg, e, traceId, w) && IsBodyOf(reg, e, traceId, w')
    ensures w == w'
  {
    hide Lookup, Scrub, CleanFields, UnknownCode;
  }

  /** `w` is the body of a raise. */
  ghost predicate RaiseBody(reg: Registry, versions: VersionParser, raise: Raise, fallback: string, traceId: string, w: Wire) {
    IsBodyOf(reg, MapRpcError(reg, versions, Some(raise), fallback), traceId, w)
  }

  // ----- the pipeline ----------------------------------------------------------

  /**
   * A registered two-segment code with any tail goes out as that code, with the
   * curated copy and no trace of the tail; the status is the table's exactly when
   * the mapping has a branch for it, and 400 otherwise.
   */
  lemma RegisteredRaise(reg: Registry, versions: VersionParser, c: string, tail: string, details: Option<string>,
                        fallback: string, traceId: string, w: Wire)
    requires IsTwoSegment(c) && IsTail(tail) && c in reg.known
    requires RaiseBody(reg, versions, Raise(c + tail, details), fallback, traceId, w)
    ensures w.code == c && w.title == Lookup(reg, c).title && w.detail == Lookup(reg, c).detail
    ensures c in reg.copy ==> w.title == reg.copy[c].title && w.detail == reg.copy[c].detail
    ensures c in reg.status && reg.status[c] in {400, 404, 409, 422, 500, 503} ==> w.status == reg.status[c]
    ensures c !in reg.status || reg.status[c] !in {400, 404, 409, 422, 500, 503} ==> w.status == 400
    ensures w.fields.None? && w.docsUrl.None? && w.retryAfter.None?
    ensures c != VersionConflict() ==> w.serverVersion.None? && w.clientVersion.None?
  {
    ExtractForward(c, tail);
    LookupExactly(reg, c);
    RegisteredErrorShape(reg, versions, c, details);
    hide IsTwoSegment, ExtractCode, UnknownCode, VersionConflict, CleanFields, Lookup, RegisteredError;
    assert MapRpcError(reg, versions, Some(Raise(c + tail, details)), fallback) == RegisteredError(reg, versions, c, details);
  }

  lemma RegisteredErrorShape(reg: Registry, versions: VersionParser, c: string, details: Option<string>)
    ensures var e := RegisteredError(reg, versions, c, details);
            && e.code == c && e.detail.None? && e.fields.None? && e.docsUrl.None? && e.retryAfter.None?
            && e.status == (if c in reg.status && reg.status[c] in {400, 404, 409, 422, 500, 503} then reg.status[c] else 400)
            && (c != VersionConflict() ==> e.serverVersion.None? && e.clientVersion.None?)
  {
    hide VersionConflict;
  }

  /** Two raises of one registered code that differ only in the tail give the same body. */
  lemma TailsDoNotShow(reg: Registry, versions: VersionParser, c: string, tail: string, tail': string, details: Option<string>,
                       fallback: string, traceId: string, w: Wire, w': Wire)
    requires IsTwoSegment(c) && IsTail(tail) && IsTail(tail') && c in reg.known
    requires RaiseBody(reg, versions, Raise(c + tail, details), fallback, traceId, w)
    requires RaiseBody(reg, versions, Raise(c + tail', details), fallback, traceId, w')
    ensures w == w'
  {
    ExtractForward(c, tail);
    ExtractForward(c, tail');
    hide IsTwoSegment, ExtractCode, IsBodyOf, RegisteredError;
    BodyIsDetermined(reg, RegisteredError(reg, versions, c, details), traceId, w, w');
  }

  /**
   * The raw message of a raise reaches the wire through the detail override exactly
   * when its code is not recognised, it is not empty, and the detector misses it;
   * in every other case the detail is the curated copy.
   */
  lemma RawMessageShowsExactly(reg: Registry, versions: VersionParser, raise: Raise, fallback: string, traceId: string, w: Wire)
    requires fallback in reg.known && RaiseBody(reg, versions, raise, fallback, traceId, w)
    ensures !Recognised(reg, raise.message) && raise.message != "" && !reg.leaky(raise.message) ==>
              w.detail == Some(raise.message) && w.code == fallback && w.status == 500
    ensures Recognised(reg, raise.message) || raise.message == "" || reg.leaky(raise.message) ==>
              w.detail == Lookup(reg, w.code).detail
  {
    hide ExtractCode, Lookup, UnknownCode, VersionConflict, CleanFields, TableStatus;
  }

  /** A raise of a registered three-segment code shows its raw message unless the two-segment prefix is registered too. */
  lemma ThreeSegmentRaiseShows(reg: Registry, versions: VersionParser, c: string, last: string, tail: string, details: Option<string>,
                               fallback: string, traceId: string, w: Wire)
    requires IsTwoSegment(c) && fallback in reg.known
    requires RaiseBody(reg, versions, Raise(c + "." + last + tail, details), fallback, traceId, w)
    ensures c !in reg.known && !reg.leaky(c + "." + last + tail) ==>
              w.code == fallback && w.detail == Some(c + "." + last + tail)
    ensures c in reg.known ==> w.code == c && w.detail == Lookup(reg, c).detail
  {
    ThreeSegmentsNeverExtracted(c, last, tail);
    hide ExtractCode, Lookup, IsTwoSegment, UnknownCode, VersionConflict, CleanFields, TableStatus, RegisteredError, Scrub;
    var m := c + "." + last + tail;
    assert |m| > 0;
    RawMessageShowsExactly(reg, versions, Raise(m, details), fallback, traceId, w);
  }

  // ----- normalize -------------------------------------------------------------

  datatype Severity = NoSeverity | SeverityText | SeverityOther

  /** Anything a handler can throw, by the branch that recognises it. `text` is the free message. */
  datatype Thrown =
    | App(error: AppError)
    | Zod(issues: seq<Field>)
    | HttpCoded(httpStatus: nat, code: string, detail: Option<string>, message: Option<string>, fields: Option<seq<Field>>)
    | HttpPlain(httpStatus: nat, text: string)
    | Abort(text: string)
    | Raw(rawCode: Option<string>, severity: Severity, text: string)

  function GenericCode(status: nat): string {
    match status
    case 400 => "generic.bad_request"
    case 401 => "generic.unauthorized"
    case 403 => "generic.forbidden"
    case 404 => "generic.not_found"
    case 409 => "generic.conflict"
    case 422 => "validation.failed"
    case 429 => "rate_limit.exceeded"
    case _ => if status >= 500 then UnknownCode() else "generic.bad_request"
  }

  predicate IsPostgrest(code: string, severity: Severity) {
    "PGRST" <= code || (code == "42501" && severity == NoSeverity)
  }

  function PostgrestArgs(code: string): AppError {
    if code == "PGRST301" || code == "42501" || code == "PGRST302" then Plain("permission.denied", 403)
    else if code == "PGRST116" then Plain("generic.not_found", 404)
    else Plain("db.constraint", 500)
  }

  function PgNativeArgs(code: string): AppError {
    match code
    case "22001" => Plain("db.constraint", 400)
    case "22003" => Plain("db.constraint", 400)
    case "22023" => Plain("db.constraint", 400)
    case "22P02" => Plain("db.constraint", 400)
    case "23502" => Plain("db.constraint", 400)
    case "23505" => Plain("db.unique_violation", 409)
    case "23503" => Plain("db.fk_violation", 409)
    case "23P01" => Plain("db.constraint", 409)
    case "23514" => Plain("db.constraint", 400)
    case "40001" => Plain("db.deadlock", 409)
    case "40P01" => Plain("db.deadlock", 409)
    case "42501" => Plain("permission.denied", 403)
    case _ => Plain("db.constraint", 500)
  }

  /** The arguments `normalize` builds the body from, branch by branch. */
  function ToArgs(t: Thrown): AppError {
    match t
    case App(e) => e
    case Zod(issues) => Plain("validation.failed", 422).(fields := Some(issues))
    case HttpCoded(status, code, detail, message, fields) =>
      Plain(code, status).(detail := if detail.Some? then detail else message, fields := fields)
    case HttpPlain(status, _) => Plain(GenericCode(status), status)
    case Abort(_) => Plain("request.cancelled", 499)
    case Raw(code, severity, _) =>
      if code.Some? && IsPostgrest(code.value, severity) then PostgrestArgs(code.value)
      else if code.Some? && severity == SeverityText then PgNativeArgs(code.value)
      else Plain(UnknownCode(), 500)
  }

  /** What the thrower asked to show. */
  function Explicit(t: Thrown): Option<string> {
    match t
    case App(e) => e.detail
    case HttpCoded(_, _, detail, message, _) => if detail.Some? then detail else message
    case _ => None
  }

  lemma OnlyExplicitDetail(t: Thrown)
    ensures ToArgs(t).detail == Explicit(t)
  {
    hide GenericCode, IsPostgrest, PostgrestArgs, PgNativeArgs, UnknownCode;
    if t.Raw? && t.rawCode.Some? {
      BranchesArePlain(t.rawCode.value);
    }
  }

  lemma BranchesArePlain(code: string)
    ensures PostgrestArgs(code).detail.None? && PgNativeArgs(code).detail.None?
    ensures PostgrestArgs(code).fields.None? && PgNativeArgs(code).fields.None?
  {
  }

  /**
   * Fail closed: whatever is thrown, the wire code is registered, and the detail is
   * the curated copy of that code, or text the thrower gave explicitly together with
   * a registered code and that the leak detector passes. Free messages never show.
   */
  lemma NothingLeaks(reg: Registry, t: Thrown, traceId: string, w: Wire)
    requires UnknownCode() in reg.known && IsBodyOf(reg, ToArgs(t), traceId, w)
    ensures w.code in reg.known
    ensures || w.detail == Lookup(reg, w.code).detail
            || (w.detail.Some? && w.detail == Explicit(t) && w.code == ToArgs(t).code
                && (w.detail.value == "" || !reg.leaky(w.detail.value)))
    ensures w.message == (if w.detail.Some? then w.detail.value else Lookup(reg, w.code).title)
  {
    hide Lookup, CleanFields, UnknownCode, ToArgs, Explicit;
    OnlyExplicitDetail(t);
  }

  /** Fail closed, by name: an error with an unregistered code goes out as the unknown error, without its detail. */
  lemma UnregisteredGoesOutAsUnknown(reg: Registry, e: AppError, traceId: string, w: Wire)
    requires IsBodyOf(reg, e, traceId, w) && e.code !in reg.known
    ensures w.code == "unknown.server_error" && w.status == 500
    ensures w.title == Lookup(reg, UnknownCode()).title && w.detail == Lookup(reg, UnknownCode()).detail
  {
    hide Lookup, CleanFields;
  }

  /** A version conflict carries the versions its raise detail gives; no error at all is the fallback. */
  lemma ConflictCarriesVersions(reg: Registry, versions: VersionParser, details: Option<string>, fallback: string)
    requires VersionConflict() in reg.status && reg.status[VersionConflict()] == 409
    ensures VersionConflict() == "planning.version_conflict"
    ensures var e := RegisteredError(reg, versions, VersionConflict(), details);
            && e.status == 409
            && (details.Some? && details.value != "" ==> (e.serverVersion, e.clientVersion) == versions(details.value))
            && (details.None? || details.value == "" ==> e.serverVersion.None? && e.clientVersion.None?)
    ensures MapRpcError(reg, versions, None, fallback) == Plain(fallback, 500)
  {
    hide ExtractCode;
  }

  /** The generic code of a plain HTTP error, by its status. */
  lemma GenericExactly(status: nat)
    ensures var c := GenericCode(status);
            && (status == 401 ==> c == "generic.unauthorized")
            && (status == 403 ==> c == "generic.forbidden")
            && (status == 404 ==> c == "generic.not_found")
            && (status == 409 ==> c == "generic.conflict")
            && (status == 422 ==> c == "validation.failed")
            && (status == 429 ==> c == "rate_limit.exceeded")
            && (status >= 500 ==> c == UnknownCode())
            && (status < 500 && status !in {401, 403, 404, 409, 422, 429} ==> c == "generic.bad_request")
  {
  }

  /** Every field entry keeps its field and code; a message that is not leaky is kept. */
  lemma FieldsAreKept(reg: Registry, t: Thrown, traceId: string, w: Wire)
    requires IsBodyOf(reg, ToArgs(t), traceId, w)
    ensures w.fields.Some? <==> GivenFields(t).Some?
    ensures w.fields.Some? ==>
              && |w.fields.value| == |GivenFields(t).value|
              && forall i :: 0 <= i < |w.fields.value| ==> KeepsField(reg, GivenFields(t).value[i], w.fields.value[i])
  {
    hide Lookup, UnknownCode, ToArgs, Shout, GivenFields;
    OnlyGivenFields(t);
  }

  /** The fields a thrower gives: validation issues, or those on a coded error. */
  function GivenFields(t: Thrown): Option<seq<Field>> {
    match t
    case App(e) => e.fields
    case Zod(issues) => Some(issues)
    case HttpCoded(_, _, _, _, fields) => fields
    case _ => None
  }

  ghost predicate KeepsField(reg: Registry, f: Field, w: Field) {
    && w.field == f.field && w.code == f.code
    && (f.message == "" || !reg.leaky(f.message) ==> w.message == f.message)
    && (f.message != "" && reg.leaky(f.message) ==> w.message == if f.code == "" then "INVALID" else Shout(f.code, false))
  }

  lemma OnlyGivenFields(t: Thrown)
    ensures ToArgs(t).fields == GivenFields(t)
  {
    hide GenericCode, IsPostgrest, PostgrestArgs, PgNativeArgs, UnknownCode;
    if t.Raw? && t.rawCode.Some? { BranchesArePlain(t.rawCode.value); }
  }

  /** Which database codes give which native error: the statuses 403, 409 and 400, and 500 for all others. */
  lemma NativeStatusExactly(code: string)
    ensures var n := PgNativeArgs(code).status;
            && (n == 403 <==> code == "42501")
            && (n == 409 <==> code in {"23505", "23503", "23P01", "40001", "40P01"})
            && (n == 400 <==> code in {"22001", "22003", "22023", "22P02", "23502", "23514"})
            && (n == 403 || n == 409 || n == 400 || n == 500)
  {
  }

  lemma NativeCodeExactly(code: string)
    ensures var c := PgNativeArgs(code).code;
            && (code == "23505" ==> c == "db.unique_violation")
            && (code == "23503" ==> c == "db.fk_violation")
            && (code in {"40001", "40P01"} ==> c == "db.deadlock")
            && (code == "42501" ==> c == "permission.denied")
            && (code !in {"23505", "23503", "40001", "40P01", "42501"} ==> c == "db.constraint")
  {
  }

  lemma PostgrestExactly(code: string)
    ensures var e := PostgrestArgs(code);
            && (code in {"PGRST301", "PGRST302", "42501"} ==> e.code == "permission.denied" && e.status == 403)
            && (code == "PGRST116" ==> e.code == "generic.not_found" && e.status == 404)
            && (code !in {"PGRST301", "PGRST302", "42501", "PGRST116"} ==> e.code == "db.constraint" && e.status == 500)
  {
  }

  /** The wire status of everything thrown that is not a database error, and the branch a database error takes. */
  lemma StatusOfThrown(reg: Registry, t: Thrown, traceId: string, w: Wire)
    requires IsBodyOf(reg, ToArgs(t), traceId, w) && ToArgs(t).code in reg.known
    ensures t.App? ==> w.status == t.error.status && w.code == t.error.code
    ensures t.Zod? ==> w.status == 422 && w.code == "validation.failed"
    ensures t.HttpCoded? ==> w.status == t.httpStatus && w.code == t.code
    ensures t.HttpPlain? ==> w.status == t.httpStatus && w.code == GenericCode(t.httpStatus)
    ensures t.Abort? ==> w.status == 499 && w.code == "request.cancelled"
    ensures t.Raw? && t.rawCode.None? ==> w.status == 500 && w.code == UnknownCode()
    ensures t.Raw? && t.rawCode.Some? ==>
              w.status == (if "PGRST" <= t.rawCode.value || (t.rawCode.value == "42501" && t.severity == NoSeverity)
                           then PostgrestArgs(t.rawCode.value).status
                           else if t.severity == SeverityText then PgNativeArgs(t.rawCode.value).status
                           else 500)
  {
    hide Lookup, CleanFields, GenericCode, PostgrestArgs, PgNativeArgs, Scrub;
  }
}
