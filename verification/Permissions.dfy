/**
 * Permission strings: `resource.action` with `*` as a wildcard on either side.
 * The catalog is a parameter. `expandGranted` walks it with nested loops; the
 * simple form it must agree with is `Matches`, one key at a time. JavaScript's
 * `in` also sees names inherited from `Object.prototype`.
 */
module Permissions {
  import opened Common
  import opened Sorting

  datatype Module = Module(name: string, actions: seq<string>, overrides: Option<seq<string>>)

  type Catalog = seq<Module>

  function AllActions(m: Module): seq<string> {
    m.actions + (if m.overrides.Some? then m.overrides.value else [])
  }

  // ----- text ------------------------------------------------------------------

  function LowerChar(c: char): char { if 'A' <= c <= 'Z' then (c as int + 32) as char else c }

  function NormalChar(c: char): char { if c == ':' then '.' else LowerChar(c) }

  /** `normalisePermission`: lower case, then every colon a dot. */
  function Normalise(s: string): (r: string)
    ensures |r| == |s| && forall i :: 0 <= i < |s| ==> r[i] == NormalChar(s[i])
    ensures forall i :: 0 <= i < |s| && s[i] == ':' ==> r[i] == '.'
    ensures forall i :: 0 <= i < |s| && 'A' <= s[i] <= 'Z' ==> r[i] as int == s[i] as int + 32
    ensures forall i :: 0 <= i < |s| && s[i] != ':' && !('A' <= s[i] <= 'Z') ==> r[i] == s[i]
  {
    if s == [] then [] else [NormalChar(s[0])] + Normalise(s[1..])
  }

  predicate IsName(s: string) { s != [] && forall i :: 0 <= i < |s| ==> IsWordChar(s[i]) }

  /** The regular expression for a segment. */
  predicate IsSegment(s: string) { s != [] && forall i :: 0 <= i < |s| ==> s[i] == '*' || IsWordChar(s[i]) }

  function Dotted(resource: string, action: string): string { resource + "." + action }

  /** The two parts of a well-formed permission. */
  function Parts(key: string): (r: Option<(string, string)>)
    ensures r.Some? ==> key == Dotted(r.value.0, r.value.1) && IsSegment(r.value.0) && IsSegment(r.value.1)
  {
    match CutFirst(key, '.')
    case None => None
    case Some((resource, action)) => if IsSegment(resource) && IsSegment(action) then Some((resource, action)) else None
  }

  lemma SegmentsHaveNoDot(s: string)
    requires IsSegment(s)
    ensures '.' !in s
  {
  }

  lemma PartsOfDotted(resource: string, action: string)
    requires IsSegment(resource) && IsSegment(action)
    ensures Parts(Dotted(resource, action)) == Some((resource, action))
  {
    SegmentsHaveNoDot(resource);
    CutFirstUnique(resource, '.', action);
  }

  /** Normalising twice is normalising once. */
  lemma NormaliseIdempotent(s: string)
    ensures Normalise(Normalise(s)) == Normalise(s)
  {
    forall i | 0 <= i < |s| ensures Normalise(Normalise(s))[i] == Normalise(s)[i] { }
  }

  lemma NormalisedKey(s: string)
    requires forall i :: 0 <= i < |s| ==> s[i] == '.' || s[i] == '*' || IsWordChar(s[i])
    ensures Normalise(s) == s
  {
  }

  /** The property names every plain object inherits. */
  predicate Inherited(s: string) {
    s in {"constructor", "__proto__", "hasOwnProperty", "isPrototypeOf", "propertyIsEnumerable", "toLocaleString",
          "toString", "valueOf", "__defineGetter__", "__defineSetter__", "__lookupGetter__", "__lookupSetter__"}
  }

  // ----- matching and expanding ------------------------------------------------

  function NormaliseAll(granted: seq<string>): (r: seq<string>)
    ensures |r| == |granted| && forall i :: 0 <= i < |r| ==> r[i] == Normalise(granted[i])
  {
    seq(|granted|, i requires 0 <= i < |granted| => Normalise(granted[i]))
  }

  /** The second part of `split('.')`. */
  function SecondPart(rest: string): string {
    match CutFirst(rest, '.') case None => rest case Some((part, _)) => part
  }

  /** `matches`. */
  predicate Matches(granted: seq<string>, requested: string) {
    var req := Normalise(requested);
    match CutFirst(req, '.')
    case None => false
    case Some((resource, rest)) =>
      var action := SecondPart(rest);
      && resource != "" && action != ""
      && var all := NormaliseAll(granted);
         req in all || Dotted(resource, "*") in all || Dotted("*", action) in all || "*.*" in all
  }

  /** Anything without two parts matches nothing; otherwise the first two parts decide. */
  lemma MatchesExactly(granted: seq<string>, requested: string, resource: string, rest: string)
    requires '.' !in resource
    ensures '.' !in Normalise(requested) ==> !Matches(granted, requested)
    ensures Normalise(requested) == resource + ['.'] + rest ==>
              (Matches(granted, requested) <==>
                 resource != "" && SecondPart(rest) != "" && AnyGrant(NormaliseAll(granted), Normalise(requested), resource, SecondPart(rest)))
  {
    CutFirstUnique(resource, '.', rest);
    hide CutFirst, Normalise, NormaliseAll, Dotted, SecondPart;
  }

  ghost predicate AnyGrant(all: seq<string>, key: string, resource: string, action: string) {
    key in all || Dotted(resource, "*") in all || Dotted("*", action) in all || "*.*" in all
  }

  lemma SecondPartExactly(part: string, more: string)
    requires '.' !in part
    ensures SecondPart(part) == part && SecondPart(part + ['.'] + more) == part
  {
    CutFirstUnique(part, '.', more);
  }

  /** What a normalised grant list gives on one catalog key. */
  predicate Grants(all: seq<string>, resource: string, action: string) {
    Dotted(resource, action) in all || Dotted(resource, "*") in all || Dotted("*", action) in all || "*.*" in all
  }

  ghost predicate GoodModule(m: Module) {
    && IsName(m.name) && !Inherited(m.name) && m.actions != []
    && forall a :: a in AllActions(m) ==> IsName(a) && !Inherited(a)
  }

  /** What the catalog's own data satisfies: plain names, no empty module. */
  ghost predicate GoodCatalog(cat: Catalog) {
    && cat != []
    && (forall i :: 0 <= i < |cat| ==> GoodModule(cat[i]))
    && (forall i, j :: 0 <= i < j < |cat| ==> cat[i].name != cat[j].name)
  }

  predicate HasKey(cat: Catalog, resource: string, action: string) {
    exists i :: 0 <= i < |cat| && cat[i].name == resource && action in AllActions(cat[i])
  }

  ghost predicate CatalogKey(cat: Catalog, key: string) {
    exists resource, action :: HasKey(cat, resource, action) && key == Dotted(resource, action)
  }

  /** A catalog key matches exactly when one of the four grants is present. */
  lemma MatchesIsGrants(granted: seq<string>, resource: string, action: string)
    requires IsName(resource) && IsName(action)
    ensures Matches(granted, Dotted(resource, action)) <==> Grants(NormaliseAll(granted), resource, action)
  {
    var key := Dotted(resource, action);
    NormalisedKey(key);
    assert '.' !in resource && '.' !in action;
    CutFirstUnique(resource, '.', action);
  }

  function CharLe(a: string, b: string): bool {
    a == [] || (b != [] && (a[0] < b[0] || (a[0] == b[0] && CharLe(a[1..], b[1..]))))
  }

  lemma {:induction false} CharLeTotal(a: string, b: string)
    ensures CharLe(a, b) || CharLe(b, a)
    ensures CharLe(a, b) && CharLe(b, a) ==> a == b
  {
    if a != [] && b != [] {
      CharLeTotal(a[1..], b[1..]);
      assert a == [a[0]] + a[1..] && b == [b[0]] + b[1..];
    }
  }

  lemma {:induction false} CharLeTransitive(a: string, b: string, c: string)
    requires CharLe(a, b) && CharLe(b, c)
    ensures CharLe(a, c)
  {
    if a != [] && a[0] == b[0] == c[0] { CharLeTransitive(a[1..], b[1..], c[1..]); }
  }

  /** The texts first differ at `i`, and there `a` is smaller. */
  predicate SmallerAt(a: string, b: string, i: nat) {
    i < |a| && i < |b| && a[..i] == b[..i] && a[i] < b[i]
  }

  lemma TailDiffers(a: string, b: string, i: nat)
    requires a != [] && b != [] && a[0] == b[0]
    ensures SmallerAt(a[1..], b[1..], i) ==> SmallerAt(a, b, i + 1)
    ensures i > 0 && SmallerAt(a, b, i) ==> SmallerAt(a[1..], b[1..], i - 1)
    ensures a[1..] <= b[1..] <==> a <= b
  {
    assert a == [a[0]] + a[1..] && b == [b[0]] + b[1..];
    if SmallerAt(a[1..], b[1..], i) {
      assert a[..i + 1] == [a[0]] + a[1..][..i] && b[..i + 1] == [b[0]] + b[1..][..i];
    }
    if i > 0 && SmallerAt(a, b, i) {
      assert a[1..][..i - 1] == a[..i][1..] && b[1..][..i - 1] == b[..i][1..];
    }
    if a <= b { assert a[1..] == b[..|a|][1..] == b[1..][..|a| - 1]; }
  }

  lemma HeadOfSmaller(a: string, b: string, i: nat)
    requires SmallerAt(a, b, i)
    ensures a[0] <= b[0]
  {
    if i > 0 { assert a[..i][0] == a[0] && b[..i][0] == b[0]; }
  }

  /** The order of `sort()`: a prefix comes first, otherwise the first difference decides. */
  lemma {:induction false} CharLeExactly(a: string, b: string)
    ensures CharLe(a, b) <==> a <= b || exists i: nat :: SmallerAt(a, b, i)
  {
    forall i: nat | SmallerAt(a, b, i) ensures a != [] && b != [] && a[0] <= b[0] { HeadOfSmaller(a, b, i); }
    if a != [] && b != [] && a[0] == b[0] {
      CharLeExactly(a[1..], b[1..]);
      TailDiffers(a, b, 0);
      if i: nat :| SmallerAt(a[1..], b[1..], i) { TailDiffers(a, b, i); }
      if i: nat :| SmallerAt(a, b, i) { TailDiffers(a, b, i); }
    } else if a != [] && b != [] && a[0] < b[0] {
      assert SmallerAt(a, b, 0);
    }
  }

  lemma CharLeIsTotalOrder()
    ensures TotalPreorder(CharLe)
    ensures forall a, b :: Tie(CharLe, a, b) ==> a == b
  {
    forall a, b ensures CharLe(a, b) || CharLe(b, a) { CharLeTotal(a, b); }
    forall a, b, c | CharLe(a, b) && CharLe(b, c) ensures CharLe(a, c) { CharLeTransitive(a, b, c); }
    forall a, b | Tie(CharLe, a, b) ensures a == b { CharLeTotal(a, b); }
  }

  ghost predicate Distinct(xs: seq<string>) { forall i, j :: 0 <= i < j < |xs| ==> xs[i] != xs[j] }

  /** `k` is a granted key of a module called `name`, among these actions. */
  ghost predicate Granted(all: seq<string>, name: string, actions: seq<string>, k: string) {
    exists a :: a in actions && Grants(all, name, a) && k == Dotted(name, a)
  }

  predicate HasWildcard(all: seq<string>, resource: string) { "*.*" in all || Dotted(resource, "*") in all }

  lemma GrantsByWildcard(all: seq<string>, resource: string, action: string)
    ensures Grants(all, resource, action) <==>
            HasWildcard(all, resource) || Dotted(resource, action) in all || Dotted("*", action) in all
  {
  }

  lemma GrantedStep(all: seq<string>, name: string, actions: seq<string>, i: nat, k: string)
    requires i < |actions|
    ensures Granted(all, name, actions[..i + 1], k) <==>
            Granted(all, name, actions[..i], k) || (Grants(all, name, actions[i]) && k == Dotted(name, actions[i]))
  {
    hide Grants, Dotted;
    assert actions[..i + 1] == actions[..i] + [actions[i]];
    assert forall a :: a in actions[..i + 1] <==> a in actions[..i] || a == actions[i];
  }

  /** The inner loop: one module's keys, added to an insertion-ordered set. */
  method ExpandModule(all: seq<string>, m: Module, found: seq<string>) returns (out: seq<string>)
    requires Distinct(found)
    ensures Distinct(out)
    ensures forall k :: k in out <==> k in found || Granted(all, m.name, AllActions(m), k)
  {
    hide Grants, Dotted, Granted;
    out := found;
    var actions := AllActions(m);
    var wildcard := HasWildcard(all, m.name);
    NothingGranted(all, m.name);
    assert actions[..0] == [];
    for i := 0 to |actions|
      invariant Distinct(out)
      invariant forall k :: k in out <==> k in found || Granted(all, m.name, actions[..i], k)
    {
      var key := Dotted(m.name, actions[i]);
      GrantsByWildcard(all, m.name, actions[i]);
      forall k ensures Granted(all, m.name, actions[..i + 1], k) <==>
                       Granted(all, m.name, actions[..i], k) || (Grants(all, m.name, actions[i]) && k == key)
      {
        GrantedStep(all, m.name, actions, i, k);
      }
      if (wildcard || key in all || Dotted("*", actions[i]) in all) && key !in out { out := out + [key]; }
    }
    assert actions[..|actions|] == actions;
  }

  lemma NothingGranted(all: seq<string>, name: string)
    ensures forall k :: !Granted(all, name, [], k)
  {
  }

  /** What a grant list expands to: the catalog keys it matches. */
  ghost function Expansion(cat: Catalog, granted: seq<string>): (keys: iset<string>) {
    iset key | CatalogKey(cat, key) && Matches(granted, key)
  }

  ghost predicate FoundIn(all: seq<string>, mods: Catalog, k: string) {
    exists i :: 0 <= i < |mods| && Granted(all, mods[i].name, AllActions(mods[i]), k)
  }

  lemma FoundStep(all: seq<string>, cat: Catalog, i: nat, k: string)
    requires i < |cat|
    ensures FoundIn(all, cat[..i + 1], k) <==> FoundIn(all, cat[..i], k) || Granted(all, cat[i].name, AllActions(cat[i]), k)
  {
    hide Granted;
    if FoundIn(all, cat[..i], k) {
      var j :| 0 <= j < i && Granted(all, cat[..i][j].name, AllActions(cat[..i][j]), k);
      assert cat[..i + 1][j] == cat[j];
    }
    if Granted(all, cat[i].name, AllActions(cat[i]), k) { assert cat[..i + 1][i] == cat[i]; }
  }

  lemma FoundIsExpansion(cat: Catalog, granted: seq<string>, k: string)
    requires GoodCatalog(cat)
    ensures FoundIn(NormaliseAll(granted), cat, k) <==> k in Expansion(cat, granted)
  {
    hide Grants, Dotted, Matches, Inherited;
    var all := NormaliseAll(granted);
    if FoundIn(all, cat, k) {
      var i :| 0 <= i < |cat| && Granted(all, cat[i].name, AllActions(cat[i]), k);
      var a :| a in AllActions(cat[i]) && Grants(all, cat[i].name, a) && k == Dotted(cat[i].name, a);
      MatchesIsGrants(granted, cat[i].name, a);
      assert HasKey(cat, cat[i].name, a);
    }
    if k in Expansion(cat, granted) {
      var r, a :| HasKey(cat, r, a) && k == Dotted(r, a);
      var i :| 0 <= i < |cat| && cat[i].name == r && a in AllActions(cat[i]);
      MatchesIsGrants(granted, r, a);
      assert Granted(all, cat[i].name, AllActions(cat[i]), k);
    }
  }

  /**
   * `expandGranted`: exactly the catalog keys the grants match, each once, in
   * ascending order. That determines the result.
   */
  method ExpandGranted(cat: Catalog, granted: seq<string>) returns (keys: seq<string>)
    requires GoodCatalog(cat)
    ensures forall k :: k in keys <==> k in Expansion(cat, granted)
    ensures Sorted(CharLe, keys) && Distinct(keys)
  {
    hide Granted, AllActions, GoodCatalog;
    var all := NormaliseAll(granted);
    var out: seq<string> := [];
    for i := 0 to |cat|
      invariant Distinct(out)
      invariant forall k :: k in out <==> FoundIn(all, cat[..i], k)
    {
      forall k ensures FoundIn(all, cat[..i + 1], k) <==> FoundIn(all, cat[..i], k) || Granted(all, cat[i].name, AllActions(cat[i]), k)
      {
        FoundStep(all, cat, i, k);
      }
      hide FoundIn;
      out := ExpandModule(all, cat[i], out);
    }
    assert cat[..|cat|] == cat;
    forall k ensures FoundIn(all, cat, k) <==> k in Expansion(cat, granted) { FoundIsExpansion(cat, granted, k); }
    hide FoundIn, Expansion;
    CharLeIsTotalOrder();
    SortSorts(CharLe, out);
    SortPermutes(CharLe, out);
    keys := Sort(CharLe, out);
    SameMembers(out, keys);
    SortedKeepsDistinct(out, keys);
  }

  lemma SameMembers(xs: seq<string>, ys: seq<string>)
    requires multiset(xs) == multiset(ys)
    ensures forall k :: k in xs <==> k in ys
  {
    assert forall k :: k in xs <==> k in multiset(xs);
    assert forall k :: k in ys <==> k in multiset(ys);
  }

  lemma {:induction false} DistinctOnce(xs: seq<string>, k: string)
    requires Distinct(xs)
    ensures multiset(xs)[k] <= 1
  {
    if xs != [] {
      DistinctOnce(xs[1..], k);
      assert xs == [xs[0]] + xs[1..];
      assert xs[0] !in xs[1..];
    }
  }

  lemma SortedKeepsDistinct(xs: seq<string>, ys: seq<string>)
    requires Distinct(xs) && multiset(xs) == multiset(ys)
    ensures Distinct(ys)
  {
    forall i, j | 0 <= i < j < |ys| ensures ys[i] != ys[j] {
      DistinctOnce(xs, ys[i]);
      assert ys == ys[..j] + [ys[j]] + ys[j + 1..];
      assert ys[i] in ys[..j];
    }
  }

  // ----- laws of expansion -----------------------------------------------------

  lemma MatchesConcat(g: seq<string>, h: seq<string>, key: string)
    ensures Matches(g + h, key) <==> Matches(g, key) || Matches(h, key)
  {
    assert NormaliseAll(g + h) == NormaliseAll(g) + NormaliseAll(h);
  }

  /** Expansion distributes over concatenation of grant lists. */
  lemma ExpansionDistributes(cat: Catalog, g: seq<string>, h: seq<string>)
    ensures Expansion(cat, g + h) == Expansion(cat, g) + Expansion(cat, h)
  {
    hide Matches, CatalogKey;
    forall k ensures k in Expansion(cat, g + h) <==> k in Expansion(cat, g) + Expansion(cat, h) { MatchesConcat(g, h, k); }
  }

  lemma CatalogKeyParts(cat: Catalog, key: string) returns (r: string, a: string)
    requires GoodCatalog(cat) && CatalogKey(cat, key)
    ensures HasKey(cat, r, a) && key == Dotted(r, a) && IsName(r) && IsName(a)
  {
    hide Dotted, Inherited;
    r, a :| HasKey(cat, r, a) && key == Dotted(r, a);
  }

  /** Concrete keys match only themselves. */
  lemma ConcreteKeysMatchThemselves(cat: Catalog, keys: seq<string>, key: string)
    requires GoodCatalog(cat) && CatalogKey(cat, key) && forall k :: k in keys ==> CatalogKey(cat, k)
    ensures Matches(keys, key) <==> key in keys
  {
    hide Matches, CatalogKey, GoodCatalog;
    var r, a := CatalogKeyParts(cat, key);
    MatchesIsGrants(keys, r, a);
    forall i | 0 <= i < |keys| ensures Normalise(keys[i]) == keys[i] && '*' !in keys[i] {
      var r', a' := CatalogKeyParts(cat, keys[i]);
      NormalisedKey(keys[i]);
    }
    assert NormaliseAll(keys) == keys;
    assert Dotted(r, "*")[|r| + 1] == '*' && Dotted("*", a)[0] == '*' && "*.*"[0] == '*';
  }

  /** Expanding an expansion gives it back. */
  lemma ExpansionIdempotent(cat: Catalog, granted: seq<string>, keys: seq<string>)
    requires GoodCatalog(cat) && forall k :: k in keys <==> k in Expansion(cat, granted)
    ensures Expansion(cat, keys) == Expansion(cat, granted)
  {
    hide Matches, CatalogKey, GoodCatalog;
    forall k ensures k in Expansion(cat, keys) <==> k in Expansion(cat, granted) {
      if CatalogKey(cat, k) { ConcreteKeysMatchThemselves(cat, keys, k); }
    }
  }

  // ----- validation ------------------------------------------------------------

  datatype Validation = Accepted | Malformed | UnknownModule | UnknownAction | Throws

  predicate HasModule(cat: Catalog, name: string) { exists i :: 0 <= i < |cat| && cat[i].name == name }

  /** `action in mod.actions || action in mod.overrides`, inherited names included. */
  predicate KnownIn(m: Module, action: string) { action in AllActions(m) || Inherited(action) }

  predicate KnownSomewhere(cat: Catalog, action: string) { exists i :: 0 <= i < |cat| && KnownIn(cat[i], action) }

  function FindModule(cat: Catalog, name: string): (r: Option<Module>)
    ensures r.Some? <==> HasModule(cat, name)
    ensures r.Some? ==> r.value in cat && r.value.name == name
  {
    if cat == [] then None
    else if cat[0].name == name then Some(cat[0])
    else
      assert forall i :: 1 <= i < |cat| ==> cat[i] == cat[1..][i - 1];
      FindModule(cat[1..], name)
  }

  /** `validatePermission`. Looking up `.actions` of an inherited name throws a TypeError. */
  function Validate(cat: Catalog, key: string): Validation {
    match Parts(Normalise(key))
    case None => Malformed
    case Some((resource, action)) =>
      if resource != "*" && !HasModule(cat, resource) && !Inherited(resource) then UnknownModule
      else if action == "*" then Accepted
      else if resource == "*" then (if KnownSomewhere(cat, action) then Accepted else UnknownAction)
      else match FindModule(cat, resource)
           case None => Throws
           case Some(m) => if KnownIn(m, action) then Accepted else UnknownAction
  }

  /** The wildcard branch of `isKnownAction`: a loop over the modules with an early return. */
  method IsKnownSomewhere(cat: Catalog, action: string) returns (known: bool)
    ensures known <==> KnownSomewhere(cat, action)
  {
    hide AllActions, Inherited;
    for i := 0 to |cat|
      invariant forall j :: 0 <= j < i ==> !KnownIn(cat[j], action)
    {
      if KnownIn(cat[i], action) { return true; }
    }
    return false;
  }

  /** The permission names something only through `Object.prototype`. */
  predicate ThroughPrototype(cat: Catalog, key: string) {
    match Parts(Normalise(key))
    case None => false
    case Some((resource, action)) =>
      (Inherited(resource) && action == "*") || (Inherited(action) && (resource == "*" || HasModule(cat, resource)))
  }

  ghost predicate ExpandsToSomething(cat: Catalog, key: string) { exists k :: k in Expansion(cat, [key]) }

  /** What one grant must name to expand to anything. */
  ghost predicate NamesSomething(cat: Catalog, resource: string, action: string) {
    exists r, a :: HasKey(cat, r, a) && (resource == "*" || resource == r) && (action == "*" || action == a)
  }

  lemma OneGrant(key: string, r: string, a: string)
    requires IsName(r) && IsName(a)
    ensures Matches([key], Dotted(r, a)) <==>
            Parts(Normalise(key)).Some? &&
            var (x, y) := Parts(Normalise(key)).value; (x == "*" || x == r) && (y == "*" || y == a)
  {
    hide Matches, Dotted, Parts;
    var n := Normalise(key);
    MatchesIsGrants([key], r, a);
    assert NormaliseAll([key]) == [n];
    PartsOfDotted(r, a);
    PartsOfDotted(r, "*");
    PartsOfDotted("*", a);
    PartsOfDotted("*", "*");
    StarStar();
  }

  lemma StarStar()
    ensures Dotted("*", "*") == "*.*"
  {
  }

  lemma ExpandsExactly(cat: Catalog, key: string)
    requires GoodCatalog(cat)
    ensures ExpandsToSomething(cat, key) <==>
            Parts(Normalise(key)).Some? && NamesSomething(cat, Parts(Normalise(key)).value.0, Parts(Normalise(key)).value.1)
  {
    hide Matches, Dotted, Parts, Inherited;
    var p := Parts(Normalise(key));
    if ExpandsToSomething(cat, key) {
      var k :| k in Expansion(cat, [key]);
      var r, a := CatalogKeyParts(cat, k);
      OneGrant(key, r, a);
    }
    if p.Some? && NamesSomething(cat, p.value.0, p.value.1) {
      var r, a :| HasKey(cat, r, a) && (p.value.0 == "*" || p.value.0 == r) && (p.value.1 == "*" || p.value.1 == a);
      assert CatalogKey(cat, Dotted(r, a));
      OneGrant(key, r, a);
      assert Dotted(r, a) in Expansion(cat, [key]);
    }
  }

  lemma OwnNames(cat: Catalog, m: Module)
    requires GoodCatalog(cat) && m in cat
    ensures IsName(m.name) && !Inherited(m.name) && m.actions != [] && m.actions[0] in AllActions(m)
    ensures forall a :: a in AllActions(m) ==> HasKey(cat, m.name, a) && !Inherited(a) && a != "*"
  {
    hide Inherited;
    StarIsNoName();
    var i :| 0 <= i < |cat| && cat[i] == m;
    assert GoodModule(cat[i]);
  }

  lemma StarIsNoName()
    ensures !IsName("*")
  {
    assert "*"[0] == '*';
  }

  lemma StarIsOwn()
    ensures !Inherited("*")
  {
  }

  /** Modules are found by name, and the name decides the module. */
  lemma KeyOfModule(cat: Catalog, m: Module, a: string)
    requires GoodCatalog(cat) && m in cat && HasKey(cat, m.name, a)
    ensures a in AllActions(m)
  {
    hide Inherited;
  }

  lemma NamedWithResource(cat: Catalog, resource: string, action: string)
    requires GoodCatalog(cat) && resource != "*"
    ensures NamesSomething(cat, resource, action) <==>
            FindModule(cat, resource).Some? && (action == "*" || action in AllActions(FindModule(cat, resource).value))
  {
    hide Inherited, AllActions, FindModule;
    var f := FindModule(cat, resource);
    if f.Some? {
      OwnNames(cat, f.value);
      if action == "*" { assert HasKey(cat, resource, f.value.actions[0]); }
    }
    if NamesSomething(cat, resource, action) {
      var r, a :| HasKey(cat, r, a) && resource == r && (action == "*" || action == a);
      var i :| 0 <= i < |cat| && cat[i].name == r && a in AllActions(cat[i]);
      assert HasModule(cat, resource);
      KeyOfModule(cat, f.value, a);
    }
  }

  lemma NamedAnywhere(cat: Catalog, action: string)
    requires GoodCatalog(cat)
    ensures action == "*" ==> NamesSomething(cat, "*", action)
    ensures action != "*" ==> (NamesSomething(cat, "*", action) <==> exists i :: 0 <= i < |cat| && action in AllActions(cat[i]))
  {
    hide Inherited, AllActions;
    OwnNames(cat, cat[0]);
    assert HasKey(cat, cat[0].name, cat[0].actions[0]);
    if i :| 0 <= i < |cat| && action in AllActions(cat[i]) { assert HasKey(cat, cat[i].name, action); }
  }

  /**
   * A permission is accepted for storage exactly when it expands to something,
   * except for the ones that name an inherited property: those and only those
   * are accepted although they grant nothing.
   */
  lemma AcceptedIffItExpands(cat: Catalog, key: string)
    requires GoodCatalog(cat)
    ensures (Validate(cat, key) == Accepted <==> ExpandsToSomething(cat, key)) <==> !ThroughPrototype(cat, key)
    ensures ThroughPrototype(cat, key) ==> Validate(cat, key) == Accepted && !ExpandsToSomething(cat, key)
  {
    hide Inherited, AllActions, FindModule, NamesSomething, ExpandsToSomething, Parts;
    ExpandsExactly(cat, key);
    StarIsOwn();
    var p := Parts(Normalise(key));
    if p.Some? {
      var (r, a) := p.value;
      forall m | m in cat ensures !Inherited(m.name) && forall b :: b in AllActions(m) ==> !Inherited(b) && b != "*" { OwnNames(cat, m); }
      if r == "*" {
        NamedAnywhere(cat, a);
        if Inherited(a) { assert KnownIn(cat[0], a); }
      } else {
        NamedWithResource(cat, r, a);
      }
    }
  }

  /** Why a permission is refused: its shape, its module, or its action. */
  lemma RefusedExactly(cat: Catalog, key: string)
    requires GoodCatalog(cat)
    ensures Validate(cat, key) == Malformed <==> !exists r, a :: IsSegment(r) && IsSegment(a) && Normalise(key) == Dotted(r, a)
    ensures forall r, a :: IsSegment(r) && IsSegment(a) && Normalise(key) == Dotted(r, a) ==>
              && (Validate(cat, key) == UnknownModule <==> r != "*" && !Inherited(r) && forall m :: m in cat ==> m.name != r)
              && (Validate(cat, key) == UnknownAction <==>
                    && a != "*" && !Inherited(a)
                    && if r == "*" then forall m :: m in cat ==> a !in AllActions(m)
                       else exists m :: m in cat && m.name == r && a !in AllActions(m))
  {
    hide Inherited, AllActions, Parts;
    PartsExactly(Normalise(key));
    forall r, a | IsSegment(r) && IsSegment(a) && Normalise(key) == Dotted(r, a)
      ensures (Validate(cat, key) == UnknownModule <==> r != "*" && !Inherited(r) && forall m :: m in cat ==> m.name != r)
      ensures (Validate(cat, key) == UnknownAction <==>
                    && a != "*" && !Inherited(a)
                    && if r == "*" then forall m :: m in cat ==> a !in AllActions(m)
                       else exists m :: m in cat && m.name == r && a !in AllActions(m))
    {
      PartsOfDotted(r, a);
      RefusedParts(cat, key, r, a);
    }
  }

  lemma PartsExactly(n: string)
    ensures Parts(n).Some? <==> exists r, a :: IsSegment(r) && IsSegment(a) && n == Dotted(r, a)
  {
    if r, a :| IsSegment(r) && IsSegment(a) && n == Dotted(r, a) { PartsOfDotted(r, a); }
  }

  lemma RefusedParts(cat: Catalog, key: string, r: string, a: string)
    requires GoodCatalog(cat) && Parts(Normalise(key)) == Some((r, a))
    ensures Validate(cat, key) == UnknownModule <==> r != "*" && !Inherited(r) && forall m :: m in cat ==> m.name != r
    ensures Validate(cat, key) == UnknownAction <==>
              && a != "*" && !Inherited(a)
              && if r == "*" then forall m :: m in cat ==> a !in AllActions(m)
                 else exists m :: m in cat && m.name == r && a !in AllActions(m)
  {
    hide Inherited, AllActions, Parts, FindModule, IsSegment;
    forall m | m in cat ensures m.name != "*" && !Inherited(m.name) { OwnNames(cat, m); StarIsNoName(); }
    SameModule(cat, r);
    if Inherited(a) { assert KnownIn(cat[0], a); }
    if m :| m in cat && a in AllActions(m) {
      var i :| 0 <= i < |cat| && cat[i] == m;
      assert KnownIn(cat[i], a);
    }
  }

  /** A name belongs to one module. */
  lemma SameModule(cat: Catalog, name: string)
    requires GoodCatalog(cat)
    ensures HasModule(cat, name) <==> exists m :: m in cat && m.name == name
    ensures forall m, n :: m in cat && n in cat && m.name == name && n.name == name ==> m == n
  {
    hide Inherited, AllActions, IsName;
  }

  /** Validation throws exactly on a concrete action of an inherited name. */
  lemma ThrowsExactly(cat: Catalog, key: string)
    requires GoodCatalog(cat)
    ensures Validate(cat, key) == Throws <==>
            Parts(Normalise(key)).Some? && Inherited(Parts(Normalise(key)).value.0) && Parts(Normalise(key)).value.1 != "*"
  {
    hide Inherited, AllActions, FindModule, Parts;
    StarIsOwn();
    forall m | m in cat ensures !Inherited(m.name) { OwnNames(cat, m); }
  }

  /** Of the inherited names only two can occur in a normalised permission. */
  lemma LowerInherited(s: string)
    requires IsSegment(s)
    ensures Inherited(s) <==> s == "constructor" || s == "__proto__"
  {
    assert "hasOwnProperty"[3] == 'O' && "isPrototypeOf"[2] == 'P' && "propertyIsEnumerable"[8] == 'I';
    assert "toLocaleString"[2] == 'L' && "toString"[2] == 'S' && "valueOf"[5] == 'O';
    assert "__defineGetter__"[8] == 'G' && "__defineSetter__"[8] == 'S' && "__lookupGetter__"[8] == 'G' && "__lookupSetter__"[8] == 'S';
  }

  lemma ConstructorIsInherited()
    ensures Inherited("constructor")
  {
  }

  lemma ConstructorIsName()
    ensures IsName("constructor")
  {
  }

  /** The family is not empty: `constructor` is accepted as an action of every module. */
  lemma InheritedActionIsAccepted(cat: Catalog, m: Module)
    requires GoodCatalog(cat) && m in cat
    ensures Validate(cat, Dotted(m.name, "constructor")) == Accepted
    ensures !ExpandsToSomething(cat, Dotted(m.name, "constructor"))
  {
    ConstructorIsInherited();
    ConstructorIsName();
    OwnNames(cat, m);
    hide Inherited, Validate, ExpandsToSomething, Parts, AllActions;
    var key := Dotted(m.name, "constructor");
    PartsOfDotted(m.name, "constructor");
    assert Normalise(key) == key by { NormalisedKey(key); }
    AcceptedIffItExpands(cat, key);
  }
}
