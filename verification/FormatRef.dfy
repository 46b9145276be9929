/** Human-readable references: `TKT-12`, `WO-7`, `RES-3`, printed and parsed. */
module FormatRef {
  import opened Common

  datatype ModuleKind = Case | WorkOrder | Reservation

  function Prefix(k: ModuleKind): string {
    match k case Case => "TKT" case WorkOrder => "WO" case Reservation => "RES"
  }

  function FormatRef(kind: ModuleKind, n: Option<nat>): string {
    if n.None? then "—" else Prefix(kind) + (['-'] + NatText(n.value))
  }

  datatype TicketKind = CaseTicket | WorkOrderTicket | NoKind

  function KindOfTicket(t: TicketKind): ModuleKind { if t == WorkOrderTicket then WorkOrder else Case }

  function FormatTicketRef(t: TicketKind, n: Option<nat>): string {
    if n.None? then "—" else FormatRef(KindOfTicket(t), n)
  }

  predicate IsLetters(s: string) { 2 <= |s| <= 4 && forall i :: 0 <= i < |s| ==> 'A' <= s[i] <= 'Z' }

  function KindOfPrefix(p: string): Option<ModuleKind> {
    if p == Prefix(Case) then Some(Case)
    else if p == Prefix(WorkOrder) then Some(WorkOrder)
    else if p == Prefix(Reservation) then Some(Reservation)
    else None
  }

  /** The regular expression `^([A-Z]{2,4})-(\d+)$` on trimmed upper-case text. */
  function MatchRef(s: string): Option<(string, string)> {
    match CutFirst(s, '-')
    case None => None
    case Some((p, digits)) => if IsLetters(p) && AllDigits(digits) && digits != "" then Some((p, digits)) else None
  }

  /** `number` is JavaScript's `Number` on a digit string: some rounding of its value. */
  function ParseRef(number: nat -> nat, input: string): Option<(ModuleKind, nat)> {
    match MatchRef(Upper(Trim(input)))
    case None => None
    case Some((p, digits)) =>
      match KindOfPrefix(p)
      case None => None
      case Some(kind) =>
        assert AllDigits(digits);
        Some((kind, number(TextNat(digits))))
  }

  const EXACT: nat := 0x20_0000_0000_0000

  /** Integers below 2^53 are doubles. */
  ghost predicate ExactBelow(number: nat -> nat) { forall n: nat :: n < EXACT ==> number(n) == n }

  lemma PrefixIsLetters(k: ModuleKind)
    ensures IsLetters(Prefix(k)) && '-' !in Prefix(k)
  {
  }

  lemma PrefixesDiffer(k: ModuleKind)
    ensures KindOfPrefix(Prefix(k)) == Some(k)
  {
    assert Prefix(Case)[0] == 'T' && Prefix(WorkOrder)[0] == 'W' && Prefix(Reservation)[0] == 'R';
  }

  lemma MatchOf(k: ModuleKind, digits: string)
    requires AllDigits(digits) && digits != ""
    ensures MatchRef(Prefix(k) + (['-'] + digits)) == Some((Prefix(k), digits))
  {
    PrefixIsLetters(k);
    assert Prefix(k) + (['-'] + digits) == Prefix(k) + ['-'] + digits;
    CutFirstUnique(Prefix(k), '-', digits);
  }

  lemma NoSpaces(s: string, k: ModuleKind, digits: string)
    requires AllDigits(digits) && digits != "" && Upper(s) == Prefix(k) + (['-'] + digits)
    ensures s != "" && !IsSpace(s[0]) && !IsSpace(s[|s| - 1])
  {
    hide Prefix, Upper, IsSpace;
    PrefixIsLetters(k);
    var p := Prefix(k);
    assert UpperChar(s[0]) == Upper(s)[0] == p[0];
    assert UpperChar(s[|s| - 1]) == Upper(s)[|s| - 1] == digits[|digits| - 1];
    VisibleChar(s[0]);
    VisibleChar(s[|s| - 1]);
  }

  lemma VisibleChar(c: char)
    ensures 'A' <= UpperChar(c) <= 'Z' || IsDigit(UpperChar(c)) ==> !IsSpace(c)
  {
  }

  lemma ParsePadded(number: nat -> nat, k: ModuleKind, digits: string, before: string, s: string, after: string)
    requires AllDigits(digits) && digits != "" && AllSpace(before) && AllSpace(after)
    requires Upper(s) == Prefix(k) + (['-'] + digits)
    ensures ParseRef(number, before + s + after) == Some((k, number(TextNat(digits))))
  {
    hide Upper, Trim, MatchRef, Prefix, KindOfPrefix;
    NoSpaces(s, k, digits);
    TrimPadded(before, s, after);
    MatchOf(k, digits);
    PrefixesDiffer(k);
  }

  /** `s` is `ref` with any of its capitals made small. */
  ghost predicate CaseVariant(s: string, ref: string) {
    |s| == |ref| && forall i :: 0 <= i < |s| ==> s[i] == ref[i] || ('A' <= ref[i] <= 'Z' && s[i] as int == ref[i] as int + 32)
  }

  lemma UpperOfVariant(s: string, k: ModuleKind, digits: string)
    requires AllDigits(digits) && CaseVariant(s, Prefix(k) + (['-'] + digits))
    ensures Upper(s) == Prefix(k) + (['-'] + digits)
  {
    var ref := Prefix(k) + (['-'] + digits);
    PrintedIsUpper(k, digits);
    assert Upper(ref) == ref;
    hide Prefix;
    forall i | 0 <= i < |s| ensures Upper(s)[i] == ref[i] { assert UpperChar(ref[i]) == Upper(ref)[i] == ref[i]; }
  }

  /** The printed references, spelled out. */
  lemma RefText(n: nat)
    ensures FormatRef(Case, Some(n)) == "TKT-" + NatText(n)
    ensures FormatRef(WorkOrder, Some(n)) == "WO-" + NatText(n)
    ensures FormatRef(Reservation, Some(n)) == "RES-" + NatText(n)
  {
    hide NatText;
  }

  /** Every printed reference parses back to its kind and number, in any letter case and with any padding. */
  lemma RefRoundTrip(number: nat -> nat, k: ModuleKind, n: nat, before: string, s: string, after: string)
    requires ExactBelow(number) && n < EXACT && AllSpace(before) && AllSpace(after)
    requires CaseVariant(s, FormatRef(k, Some(n)))
    ensures ParseRef(number, before + s + after) == Some((k, n))
  {
    hide ParseRef, Upper, CaseVariant;
    NatTextRoundTrip(n);
    UpperOfVariant(s, k, NatText(n));
    ParsePadded(number, k, NatText(n), before, s, after);
  }

  /** Printing is its own upper case, so the reference itself round-trips. */
  lemma {:induction false} PrintedIsUpper(k: ModuleKind, digits: string)
    requires AllDigits(digits)
    ensures Upper(Prefix(k) + (['-'] + digits)) == Prefix(k) + (['-'] + digits)
  {
    PrefixIsLetters(k);
    var u := Prefix(k) + (['-'] + digits);
    forall i | 0 <= i < |u| ensures UpperChar(u[i]) == u[i] {
      if i < |Prefix(k)| { assert u[i] == Prefix(k)[i]; }
      else if i > |Prefix(k)| { assert u[i] == digits[i - |Prefix(k)| - 1]; }
    }
  }

  lemma RefsAreInjective(k: ModuleKind, n: nat, k': ModuleKind, n': nat)
    requires FormatRef(k, Some(n)) == FormatRef(k', Some(n'))
    ensures k == k' && n == n'
  {
    hide MatchRef, Prefix, NatText;
    MatchOf(k, NatText(n));
    MatchOf(k', NatText(n'));
    PrefixesDiffer(k);
    PrefixesDiffer(k');
    NatTextRoundTrip(n);
    NatTextRoundTrip(n');
  }

  /**
   * Reprinting any accepted reference gives its canonical form: trimmed, upper
   * case, leading zeros gone.
   */
  lemma ReprintIsCanonical(number: nat -> nat, input: string)
    requires ExactBelow(number) && ParseRef(number, input).Some?
    requires TextNat(MatchRef(Upper(Trim(input))).value.1) < EXACT
    ensures var (kind, n) := ParseRef(number, input).value;
            var (p, digits) := MatchRef(Upper(Trim(input))).value;
            && Upper(Trim(input)) == p + (['-'] + digits)
            && FormatRef(kind, Some(n)) == p + (['-'] + DropZeros(digits))
  {
    hide Trim, Upper, NatText, DropZeros;
    var s := Upper(Trim(input));
    var (p, digits) := MatchRef(s).value;
    assert s == p + ['-'] + digits;
    DropZerosKeepsValue(digits);
    CanonicalTextRoundTrip(DropZeros(digits));
  }

  /** What is accepted, and as what: a known prefix, a dash and digits, after trimming and upper-casing. */
  lemma AcceptedExactly(number: nat -> nat, input: string, k: ModuleKind, m: nat)
    ensures ParseRef(number, input) == Some((k, m)) <==>
            exists digits :: AllDigits(digits) && digits != "" && Upper(Trim(input)) == Prefix(k) + (['-'] + digits) && m == number(TextNat(digits))
  {
    hide Trim, Upper, TextNat, Prefix;
    var s := Upper(Trim(input));
    if ParseRef(number, input) == Some((k, m)) {
      var (p, digits) := MatchRef(s).value;
      assert p == Prefix(k) && s == p + ['-'] + digits;
      assert s == p + (['-'] + digits);
    }
    if digits :| AllDigits(digits) && digits != "" && s == Prefix(k) + (['-'] + digits) && m == number(TextNat(digits)) {
      MatchOf(k, digits);
      PrefixesDiffer(k);
    }
  }

  /** A missing number prints a dash that never parses. */
  lemma DashIsNotARef(number: nat -> nat, k: ModuleKind)
    ensures FormatRef(k, None) == "—" && FormatTicketRef(NoKind, None) == "—"
    ensures ParseRef(number, FormatRef(k, None)).None?
  {
    var d := "—";
    assert d == [d[0]] && d[0] != '-' && UpperChar(d[0]) == d[0];
    assert !IsSpace(d[0]);
    assert Trim(d) == d;
    assert Upper(d) == d;
    assert '-' !in d;
  }

  /** Ticket references: a missing kind prints as a case, and parses back as one. */
  lemma TicketRefRoundTrip(number: nat -> nat, t: TicketKind, n: nat)
    requires ExactBelow(number) && n < EXACT
    ensures ParseRef(number, FormatTicketRef(t, Some(n))) == Some((if t == WorkOrderTicket then WorkOrder else Case, n))
  {
    hide ParseRef, Upper, Prefix;
    var s := FormatTicketRef(t, Some(n));
    PrintedIsUpper(KindOfTicket(t), NatText(n));
    RefRoundTrip(number, KindOfTicket(t), n, "", s, "");
    assert "" + s + "" == s;
  }
}
