/** Filling in the listing data of many models at once: exact names from caches and one
    channel query, rule models (prefix, contains, suffix) from one pass over the price list
    and a second channel query. */
module Enrich {
  import opened Basics

  const NAME_RULE_EXACT := 0
  const NAME_RULE_PREFIX := 1
  const NAME_RULE_CONTAINS := 2
  const NAME_RULE_SUFFIX := 3

  datatype BoundChannel = BoundChannel(name: string, kind: int)

  datatype Pricing = Pricing(modelName: string, endpoints: seq<string>, groups: seq<string>, quotaType: int)

  /** What the surroundings supply: the enabled channels of a model, whether each of the
      two channel queries succeeds, the caches for exact names, and the JSON encoding. */
  datatype Sources = Sources(
    bound: string -> seq<BoundChannel>, exactQuery: bool, ruleQuery: bool,
    endpointsOf: string -> seq<string>, groupsOf: string -> seq<string>, quotaTypesOf: string -> seq<int>,
    encode: seq<string> -> string)

  /** The value of a model record. */
  datatype Meta = Meta(
    name: string, rule: int, endpoints: string, bound: seq<BoundChannel>, groups: seq<string>,
    quotas: seq<int>, matched: seq<string>, count: int)

  class ModelMeta {
    const modelName: string
    const nameRule: int
    var endpoints: string
    var boundChannels: seq<BoundChannel>
    var enableGroups: seq<string>
    var quotaTypes: seq<int>
    var matchedModels: seq<string>
    var matchedCount: int

    constructor (modelName: string, nameRule: int, endpoints: string)
      ensures Value() == Meta(modelName, nameRule, endpoints, [], [], [], [], 0)
    {
      this.modelName, this.nameRule, this.endpoints := modelName, nameRule, endpoints;
      boundChannels, enableGroups, quotaTypes, matchedModels, matchedCount := [], [], [], [], 0;
    }

    ghost function Value(): Meta
      reads this
    {
      Meta(modelName, nameRule, endpoints, boundChannels, enableGroups, quotaTypes, matchedModels, matchedCount)
    }
  }

  // ---------- the per-model meaning ----------

  predicate HasPrefix(s: string, p: string) {
    p <= s
  }

  predicate HasSuffix(s: string, p: string) {
    |p| <= |s| && s[|s| - |p|..] == p
  }

  predicate Contains(s: string, p: string) {
    exists i :: 0 <= i <= |s| - |p| && OccursAt(s, p, i)
  }

  predicate OccursAt(s: string, p: string, i: nat)
    requires i + |p| <= |s|
  {
    s[i..i + |p|] == p
  }

  predicate Matches(rule: int, pattern: string, name: string) {
    if rule == NAME_RULE_PREFIX then HasPrefix(name, pattern)
    else if rule == NAME_RULE_SUFFIX then HasSuffix(name, pattern)
    else if rule == NAME_RULE_CONTAINS then Contains(name, pattern)
    else false
  }

  /** What one rule model gathers from the price list. */
  datatype Match = Match(names: seq<string>, endpoints: set<string>, groups: set<string>, quotas: set<int>)

  const NO_MATCH := Match([], {}, {}, {})

  function Extend(m: Match, p: Pricing): Match {
    Match(m.names + [p.modelName], m.endpoints + (set e | e in p.endpoints),
      m.groups + (set g | g in p.groups), m.quotas + {p.quotaType})
  }

  function MatchUpTo(rule: int, pattern: string, pricings: seq<Pricing>, n: nat): Match
    requires n <= |pricings|
  {
    if n == 0 then NO_MATCH
    else
      var m := MatchUpTo(rule, pattern, pricings, n - 1);
      if Matches(rule, pattern, pricings[n - 1].modelName) then Extend(m, pricings[n - 1]) else m
  }

  function MatchOf(rule: int, pattern: string, pricings: seq<Pricing>): Match {
    MatchUpTo(rule, pattern, pricings, |pricings|)
  }

  predicate Hit(rule: int, pattern: string, pricings: seq<Pricing>, i: int) {
    0 <= i < |pricings| && Matches(rule, pattern, pricings[i].modelName)
  }

  /** The positions of the matching prices, in order. */
  function Hits(rule: int, pattern: string, pricings: seq<Pricing>, n: nat): (hits: seq<nat>)
    requires n <= |pricings|
    ensures forall k :: 0 <= k < |hits| ==> hits[k] < n
    ensures forall j, k :: 0 <= j < k < |hits| ==> hits[j] < hits[k]
  {
    if n == 0 then []
    else if Matches(rule, pattern, pricings[n - 1].modelName) then Hits(rule, pattern, pricings, n - 1) + [n - 1]
    else Hits(rule, pattern, pricings, n - 1)
  }

  /** The hits are exactly the matching positions. */
  lemma {:induction false} HitsExact(rule: int, pattern: string, pricings: seq<Pricing>, n: nat, i: nat)
    requires n <= |pricings|
    ensures i in Hits(rule, pattern, pricings, n) <==> i < n && Hit(rule, pattern, pricings, i)
  {
    if n > 0 {
      HitsExact(rule, pattern, pricings, n - 1, i);
    }
  }

  /** The matched names are the ordered filter of the price list: the names at the hits. */
  lemma {:induction false} MatchedNames(rule: int, pattern: string, pricings: seq<Pricing>, n: nat, k: nat)
    requires n <= |pricings|
    ensures var names, hits := MatchUpTo(rule, pattern, pricings, n).names, Hits(rule, pattern, pricings, n);
      |names| == |hits| && (k < |hits| ==> names[k] == pricings[hits[k]].modelName)
  {
    if n > 0 {
      MatchedNames(rule, pattern, pricings, n - 1, k);
    }
  }

  lemma PrefixByText(pattern: string, name: string)
    ensures HasPrefix(name, pattern) <==> exists t :: name == pattern + t
  {
    if HasPrefix(name, pattern) {
      assert name == pattern + name[|pattern|..];
    }
  }

  lemma SuffixByText(pattern: string, name: string)
    ensures HasSuffix(name, pattern) <==> exists t :: name == t + pattern
  {
    if HasSuffix(name, pattern) {
      assert name == name[..|name| - |pattern|] + pattern;
    }
  }

  lemma ContainsByText(pattern: string, name: string)
    ensures Contains(name, pattern) <==> exists a, b :: name == a + pattern + b
  {
    if Contains(name, pattern) {
      var i :| 0 <= i <= |name| - |pattern| && OccursAt(name, pattern, i);
      assert name == name[..i] + pattern + name[i + |pattern|..];
    }
    forall a: string, b: string | name == a + pattern + b
      ensures Contains(name, pattern)
    {
      assert OccursAt(name, pattern, |a|);
    }
  }

  /** Which names a rule model matches: of the listed prices, under rule 1 those that begin
      with its name, under rule 2 those that contain it, under rule 3 those that end with
      it, and none under any other number. */
  lemma NamesByRule(rule: int, pattern: string, pricings: seq<Pricing>, name: string)
    ensures name in MatchOf(rule, pattern, pricings).names <==>
      && (exists j :: 0 <= j < |pricings| && pricings[j].modelName == name)
      && (|| (rule == 1 && exists t :: name == pattern + t)
          || (rule == 2 && exists a, b :: name == a + pattern + b)
          || (rule == 3 && exists t :: name == t + pattern))
  {
    HitByName(rule, pattern, pricings, |pricings|, name);
    PrefixByText(pattern, name);
    SuffixByText(pattern, name);
    ContainsByText(pattern, name);
  }

  lemma {:induction false} HitByName(rule: int, pattern: string, pricings: seq<Pricing>, n: nat, name: string)
    requires n <= |pricings|
    ensures name in MatchUpTo(rule, pattern, pricings, n).names <==>
      Matches(rule, pattern, name) && exists j :: 0 <= j < n && pricings[j].modelName == name
  {
    if n > 0 {
      HitByName(rule, pattern, pricings, n - 1, name);
    }
  }

  /** The gathered sets are the unions over the matching prices. */
  lemma {:induction false} MatchedUnions(rule: int, pattern: string, pricings: seq<Pricing>, n: nat,
      text: string, quota: int)
    requires n <= |pricings|
    ensures var m := MatchUpTo(rule, pattern, pricings, n);
      && (text in m.endpoints <==>
            exists i :: 0 <= i < n && Hit(rule, pattern, pricings, i) && text in pricings[i].endpoints)
      && (text in m.groups <==> exists i :: 0 <= i < n && Hit(rule, pattern, pricings, i) && text in pricings[i].groups)
      && (quota in m.quotas <==>
            exists i :: 0 <= i < n && Hit(rule, pattern, pricings, i) && quota == pricings[i].quotaType)
  {
    if n > 0 {
      MatchedUnions(rule, pattern, pricings, n - 1, text, quota);
      assert Hit(rule, pattern, pricings, n - 1) <==> Matches(rule, pattern, pricings[n - 1].modelName);
    }
  }

  /** The sequence lists the set, each element once. */
  ghost predicate Lists<T(!new)>(s: seq<T>, elements: set<T>) {
    Distinct(s) && forall x :: x in s <==> x in elements
  }

  predicate StrictlyIncreasing(s: seq<int>) {
    forall i, j :: 0 <= i < j < |s| ==> s[i] < s[j]
  }

  function ChannelUnion(names: seq<string>, s: Sources): set<BoundChannel> {
    if s.ruleQuery then set n, ch | n in names && ch in s.bound(n) :: ch else {}
  }

  ghost predicate EnrichedExact(a: Meta, b: Meta, s: Sources) {
    b == a.(endpoints := if a.endpoints == "" then s.encode(s.endpointsOf(a.name)) else a.endpoints,
            bound := if s.exactQuery then s.bound(a.name) else [],
            groups := s.groupsOf(a.name),
            quotas := s.quotaTypesOf(a.name))
  }

  ghost predicate EndpointsFilled(a: string, b: string, endpoints: set<string>, s: Sources) {
    if a != "" then b == a else exists list :: Lists(list, endpoints) && b == s.encode(list)
  }

  /** A rule model on its own: unions over its matches; without a match everything but the
      match fields stays, and without a bound channel the channels stay. */
  ghost predicate EnrichedRule(a: Meta, b: Meta, pricings: seq<Pricing>, s: Sources) {
    var m := MatchOf(a.rule, a.name, pricings);
    && b.name == a.name && b.rule == a.rule
    && b.matched == m.names && b.count == |m.names|
    && (if m.names == [] then b.endpoints == a.endpoints && b.groups == a.groups && b.quotas == a.quotas
        else
          && EndpointsFilled(a.endpoints, b.endpoints, m.endpoints, s)
          && Lists(b.groups, m.groups)
          && Lists(b.quotas, m.quotas) && StrictlyIncreasing(b.quotas))
    && (if ChannelUnion(m.names, s) == {} then b.bound == a.bound else Lists(b.bound, ChannelUnion(m.names, s)))
  }

  ghost predicate Enriched(a: Meta, b: Meta, pricings: seq<Pricing>, s: Sources) {
    if a.rule == NAME_RULE_EXACT then EnrichedExact(a, b, s) else EnrichedRule(a, b, pricings, s)
  }

  /** Enriching a record again changes nothing that matters, so a record that occurs twice
      in the list does no harm. */
  lemma EnrichedTwice(a: Meta, b: Meta, c: Meta, pricings: seq<Pricing>, s: Sources)
    requires Enriched(a, b, pricings, s) && Enriched(b, c, pricings, s)
    ensures Enriched(a, c, pricings, s)
  {
  }

  lemma MatchedByRule(a: Meta, b: Meta, pricings: seq<Pricing>, s: Sources, name: string)
    requires Enriched(a, b, pricings, s) && a.rule != 0
    ensures name in b.matched <==>
      && (exists j :: 0 <= j < |pricings| && pricings[j].modelName == name)
      && (|| (a.rule == 1 && exists t :: name == a.name + t)
          || (a.rule == 2 && exists x, y :: name == x + a.name + y)
          || (a.rule == 3 && exists t :: name == t + a.name))
  {
    NamesByRule(a.rule, a.name, pricings, name);
  }

  /** What an enriched exact record shows. */
  lemma ExactShows(a: Meta, b: Meta, pricings: seq<Pricing>, s: Sources)
    requires Enriched(a, b, pricings, s) && a.rule == 0
    ensures b.name == a.name && b.rule == a.rule && b.matched == a.matched && b.count == a.count
    ensures b.endpoints == if a.endpoints != "" then a.endpoints else s.encode(s.endpointsOf(a.name))
    ensures b.bound == if s.exactQuery then s.bound(a.name) else []
    ensures b.groups == s.groupsOf(a.name) && b.quotas == s.quotaTypesOf(a.name)
  {
  }

  /** Whose name the record has matched. */
  predicate Contributes(b: Meta, p: Pricing) {
    p.modelName in b.matched
  }

  /** What an enriched rule model shows, price by price: with any match its groups and quota
      types are those of the prices whose name it matches, each once and the quota types
      ascending; without one, nothing but the match fields changes. */
  lemma RuleShows(a: Meta, b: Meta, pricings: seq<Pricing>, s: Sources, group: string, quota: int)
    requires Enriched(a, b, pricings, s) && a.rule != 0
    ensures b.name == a.name && b.rule == a.rule && b.count == |b.matched|
    ensures b.matched == [] ==> b == a.(matched := [], count := 0)
    ensures b.matched != [] ==>
      && (group in b.groups <==>
            exists j :: 0 <= j < |pricings| && Contributes(b, pricings[j]) && group in pricings[j].groups)
      && (quota in b.quotas <==>
            exists j :: 0 <= j < |pricings| && Contributes(b, pricings[j]) && quota == pricings[j].quotaType)
      && (forall i, j :: 0 <= i < j < |b.groups| ==> b.groups[i] != b.groups[j])
      && (forall i, j :: 0 <= i < j < |b.quotas| ==> b.quotas[i] < b.quotas[j])
  {
    GatheredByName(a.rule, a.name, pricings, b, group, quota);
    assert b.matched == [] ==> ChannelUnion(b.matched, s) == {};
  }

  /** Its endpoints are kept if it has any, else they are those of the prices it matches. */
  lemma RuleEndpoints(a: Meta, b: Meta, pricings: seq<Pricing>, s: Sources)
    requires Enriched(a, b, pricings, s) && a.rule != 0
    ensures a.endpoints != "" || b.matched == [] ==> b.endpoints == a.endpoints
    ensures a.endpoints == "" && b.matched != [] ==>
      exists list :: b.endpoints == s.encode(list) && EndpointsOf(b, pricings, list)
  {
    var m := MatchOf(a.rule, a.name, pricings);
    if a.endpoints == "" && b.matched != [] {
      var list :| Lists(list, m.endpoints) && b.endpoints == s.encode(list);
      forall e
        ensures e in list <==>
          exists j :: 0 <= j < |pricings| && Contributes(b, pricings[j]) && e in pricings[j].endpoints
      {
        GatheredByName(a.rule, a.name, pricings, b, e, 0);
      }
      assert EndpointsOf(b, pricings, list);
    }
  }

  /** The endpoints of the matched prices, each once. */
  ghost predicate EndpointsOf(b: Meta, pricings: seq<Pricing>, list: seq<string>) {
    && (forall i, j :: 0 <= i < j < |list| ==> list[i] != list[j])
    && forall e :: e in list <==>
         exists j :: 0 <= j < |pricings| && Contributes(b, pricings[j]) && e in pricings[j].endpoints
  }

  /** Its channels are those of the names it matches, if the query finds any. */
  lemma RuleChannels(a: Meta, b: Meta, pricings: seq<Pricing>, s: Sources, ch: BoundChannel)
    requires Enriched(a, b, pricings, s) && a.rule != 0
    ensures (exists n :: n in b.matched && s.ruleQuery && s.bound(n) != []) ==>
      (ch in b.bound <==> exists n :: n in b.matched && ch in s.bound(n))
    ensures !(exists n :: n in b.matched && s.ruleQuery && s.bound(n) != []) ==> b.bound == a.bound
  {
    var union := ChannelUnion(b.matched, s);
    if n :| n in b.matched && s.ruleQuery && s.bound(n) != [] {
      assert s.bound(n)[0] in s.bound(n);
      assert s.bound(n)[0] in union;
    } else {
      assert union == {};
    }
  }

  lemma GatheredByName(rule: int, pattern: string, pricings: seq<Pricing>, b: Meta, text: string, quota: int)
    requires b.matched == MatchOf(rule, pattern, pricings).names
    ensures var m := MatchOf(rule, pattern, pricings);
      && (text in m.endpoints <==>
            exists j :: 0 <= j < |pricings| && Contributes(b, pricings[j]) && text in pricings[j].endpoints)
      && (text in m.groups <==>
            exists j :: 0 <= j < |pricings| && Contributes(b, pricings[j]) && text in pricings[j].groups)
      && (quota in m.quotas <==>
            exists j :: 0 <= j < |pricings| && Contributes(b, pricings[j]) && quota == pricings[j].quotaType)
  {
    MatchedUnions(rule, pattern, pricings, |pricings|, text, quota);
    forall j | 0 <= j < |pricings|
      ensures Contributes(b, pricings[j]) <==> Hit(rule, pattern, pricings, j)
    {
      HitByName(rule, pattern, pricings, |pricings|, pricings[j].modelName);
    }
  }

  // ---------- channel keys ----------

  function Digits(n: nat): (s: string)
    ensures s != [] && forall i :: 0 <= i < |s| ==> '0' <= s[i] <= '9'
  {
    if n < 10 then ['0' + n as char] else Digits(n / 10) + ['0' + (n % 10) as char]
  }

  lemma {:induction false} DigitsInjective(m: nat, n: nat)
    requires Digits(m) == Digits(n)
    ensures m == n
  {
    var a, b := Digits(m), Digits(n);
    assert Last(a) == Last(b) && Most(a) == Most(b);
    assert m % 10 == n % 10;
    if m >= 10 && n >= 10 {
      assert Most(a) == Digits(m / 10) && Most(b) == Digits(n / 10);
      DigitsInjective(m / 10, n / 10);
    }
  }

  /** strconv.Itoa. */
  function Itoa(n: int): string {
    if n < 0 then "-" + Digits(-n) else Digits(n)
  }

  lemma ItoaInjective(m: int, n: int)
    requires Itoa(m) == Itoa(n)
    ensures m == n
  {
    assert Itoa(m)[0] == '-' <==> m < 0;
    assert Itoa(n)[0] == '-' <==> n < 0;
    if m < 0 {
      assert Itoa(m)[1..] == Digits(-m) && Itoa(n)[1..] == Digits(-n);
      DigitsInjective(-m, -n);
    } else {
      DigitsInjective(m, n);
    }
  }

  function Key(ch: BoundChannel): string {
    ch.name + "_" + Itoa(ch.kind)
  }

  /** Only one channel (name, type) has a given key, whatever underscores the name has. */
  lemma KeyInjective(a: BoundChannel, b: BoundChannel)
    requires Key(a) == Key(b)
    ensures a == b
  {
    NoUnderscore(a.kind);
    NoUnderscore(b.kind);
    LastUnderscore(a.name, Itoa(a.kind), b.name, Itoa(b.kind));
    ItoaInjective(a.kind, b.kind);
  }

  lemma NoUnderscore(n: int)
    ensures '_' !in Itoa(n)
  {
  }

  lemma LastUnderscore(s: string, x: string, t: string, y: string)
    requires s + "_" + x == t + "_" + y && '_' !in x && '_' !in y
    ensures s == t && x == y
  {
    var whole := s + "_" + x;
    UnderscoreAt(s, x);
    UnderscoreAt(t, y);
    assert |s| == |t|;
    assert s == whole[..|s|] && t == (t + "_" + y)[..|t|];
    assert x == whole[|s| + 1..] && y == (t + "_" + y)[|t| + 1..];
  }

  lemma UnderscoreAt(s: string, x: string)
    requires '_' !in x
    ensures (s + "_" + x)[|s|] == '_'
    ensures forall i :: |s| < i < |s + "_" + x| ==> (s + "_" + x)[i] != '_'
  {
    forall i | |s| < i < |s + "_" + x|
      ensures (s + "_" + x)[i] != '_'
    {
      assert (s + "_" + x)[i] == x[i - |s| - 1];
    }
  }

  // ---------- listing sets ----------

  /** The elements of a set in whatever order the map hands them out. */
  method ListSet(elements: set<string>) returns (list: seq<string>)
    ensures Lists(list, elements)
  {
    list := [];
    var pending := elements;
    while pending != {}
      invariant pending <= elements && Lists(list, elements - pending)
      decreases |pending|
    {
      var x :| x in pending;
      list := list + [x];
      pending := pending - {x};
    }
  }

  method AnyOf<T>(elements: set<T>) returns (x: T)
    requires elements != {}
    ensures x in elements
  {
    x :| x in elements;
  }

  method InsertSorted(list: seq<int>, x: int) returns (sorted: seq<int>)
    requires StrictlyIncreasing(list) && x !in list
    ensures StrictlyIncreasing(sorted) && forall y :: y in sorted <==> y in list || y == x
  {
    var i := 0;
    while i < |list| && list[i] < x
      invariant 0 <= i <= |list|
      invariant forall j :: 0 <= j < i ==> list[j] < x
    {
      i := i + 1;
    }
    sorted := list[..i] + [x] + list[i..];
    assert list == list[..i] + list[i..];
    assert forall j :: i <= j < |list| ==> x < list[j] by {
      assert i < |list| ==> list[i] in list;
    }
  }

  /** Collecting the elements and sort.Ints. */
  method SortSet(elements: set<int>) returns (sorted: seq<int>)
    ensures StrictlyIncreasing(sorted) && Lists(sorted, elements)
  {
    sorted := [];
    var pending := elements;
    while pending != {}
      invariant pending <= elements
      invariant StrictlyIncreasing(sorted)
      invariant forall x :: x in sorted <==> x in elements && x !in pending
      decreases |pending|
    {
      var x := AnyOf(pending);
      sorted := InsertSorted(sorted, x);
      pending := pending - {x};
    }
  }

  function Lookup(channels: map<string, seq<BoundChannel>>, name: string): seq<BoundChannel> {
    if name in channels then channels[name] else []
  }

  /** GetBoundChannelsByModelsMap: rows grouped by model, nothing when the query fails. */
  function Query(names: seq<string>, ok: bool, s: Sources): (channels: map<string, seq<BoundChannel>>)
    ensures forall name :: name in names ==> Lookup(channels, name) == if ok then s.bound(name) else []
  {
    if ok then map name | name in names && s.bound(name) != [] :: s.bound(name) else map[]
  }

  ghost predicate Reached(names: seq<string>, channels: map<string, seq<BoundChannel>>, n: nat, ch: BoundChannel)
    requires n <= |names|
  {
    exists i :: 0 <= i < n && ch in Lookup(channels, names[i])
  }

  predicate Keyed(channelSet: map<string, BoundChannel>) {
    forall key :: key in channelSet ==> Key(channelSet[key]) == key
  }

  predicate HasChannel(channelSet: map<string, BoundChannel>, ch: BoundChannel) {
    Key(ch) in channelSet && channelSet[Key(ch)] == ch
  }

  method AddChannel(before: map<string, BoundChannel>, ch: BoundChannel) returns (channelSet: map<string, BoundChannel>)
    requires Keyed(before)
    ensures Keyed(channelSet)
    ensures forall other :: HasChannel(channelSet, other) <==> HasChannel(before, other) || other == ch
  {
    var key := Key(ch);
    channelSet := before[key := ch];
    forall other
      ensures HasChannel(channelSet, other) <==> HasChannel(before, other) || other == ch
    {
      if Key(other) == key {
        KeyInjective(other, ch);
      }
    }
  }

  method CollectChannels(names: seq<string>, channels: map<string, seq<BoundChannel>>)
      returns (channelSet: map<string, BoundChannel>)
    ensures Keyed(channelSet)
    ensures forall ch :: HasChannel(channelSet, ch) <==> Reached(names, channels, |names|, ch)
  {
    channelSet := map[];
    for i := 0 to |names|
      invariant Keyed(channelSet)
      invariant forall ch :: HasChannel(channelSet, ch) <==> Reached(names, channels, i, ch)
    {
      var chs := Lookup(channels, names[i]);
      for j := 0 to |chs|
        invariant Keyed(channelSet)
        invariant forall ch :: HasChannel(channelSet, ch) <==> Reached(names, channels, i, ch) || ch in chs[..j]
      {
        assert chs[..j + 1] == chs[..j] + [chs[j]];
        channelSet := AddChannel(channelSet, chs[j]);
      }
      assert chs[..|chs|] == chs;
      assert forall ch :: Reached(names, channels, i + 1, ch) <==>
        Reached(names, channels, i, ch) || ch in Lookup(channels, names[i]);
    }
  }

  method ListChannels(channelSet: map<string, BoundChannel>) returns (chs: seq<BoundChannel>)
    requires Keyed(channelSet)
    ensures Distinct(chs) && forall ch :: ch in chs <==> HasChannel(channelSet, ch)
  {
    chs := [];
    var keys := channelSet.Keys;
    while keys != {}
      invariant keys <= channelSet.Keys
      invariant Distinct(chs) && forall ch :: ch in chs <==> HasChannel(channelSet, ch) && Key(ch) !in keys
      decreases |keys|
    {
      var key :| key in keys;
      chs := chs + [channelSet[key]];
      keys := keys - {key};
    }
  }

  // ---------- filling one record ----------

  method FillExact(mm: ModelMeta, chs: seq<BoundChannel>, s: Sources)
    requires chs == if s.exactQuery then s.bound(mm.modelName) else []
    modifies mm
    ensures EnrichedExact(old(mm.Value()), mm.Value(), s)
  {
    if mm.endpoints == "" {
      mm.endpoints := s.encode(s.endpointsOf(mm.modelName));
    }
    mm.boundChannels := chs;
    mm.enableGroups := s.groupsOf(mm.modelName);
    mm.quotaTypes := s.quotaTypesOf(mm.modelName);
  }

  /** A match is kept for an index exactly when something matched. */
  predicate FoundIs(found: map<nat, Match>, idx: nat, m: Match) {
    if m.names == [] then idx !in found && m == NO_MATCH else idx in found && found[idx] == m
  }

  method FillChannels(mm: ModelMeta, names: seq<string>, channels: map<string, seq<BoundChannel>>, s: Sources)
    requires forall name :: name in names ==> Lookup(channels, name) == if s.ruleQuery then s.bound(name) else []
    modifies mm`boundChannels
    ensures if ChannelUnion(names, s) == {} then mm.boundChannels == old(mm.boundChannels)
            else Lists(mm.boundChannels, ChannelUnion(names, s))
  {
    var channelSet := CollectChannels(names, channels);
    forall ch
      ensures ch in ChannelUnion(names, s) <==> HasChannel(channelSet, ch)
    {
      if ch in ChannelUnion(names, s) {
        ghost var name :| name in names && ch in s.bound(name);
        ghost var i :| 0 <= i < |names| && names[i] == name;
        assert ch in Lookup(channels, names[i]);
      }
    }
    if |channelSet| > 0 {
      assert exists key :: key in channelSet;
      ghost var key :| key in channelSet;
      assert HasChannel(channelSet, channelSet[key]);
      mm.boundChannels := ListChannels(channelSet);
    }
  }

  method FillRule(mm: ModelMeta, idx: nat, found: map<nat, Match>, channels: map<string, seq<BoundChannel>>,
                  pricings: seq<Pricing>, s: Sources)
    requires FoundIs(found, idx, MatchOf(mm.nameRule, mm.modelName, pricings))
    requires forall name :: idx in found && name in found[idx].names ==>
      Lookup(channels, name) == if s.ruleQuery then s.bound(name) else []
    modifies mm
    ensures EnrichedRule(old(mm.Value()), mm.Value(), pricings, s)
  {
    if idx in found && mm.endpoints == "" {
      var eps := ListSet(found[idx].endpoints);
      mm.endpoints := s.encode(eps);
    }
    if idx in found {
      mm.enableGroups := ListSet(found[idx].groups);
    }
    if idx in found {
      mm.quotaTypes := SortSet(found[idx].quotas);
    }
    var names := if idx in found then found[idx].names else [];
    FillChannels(mm, names, channels, s);
    mm.matchedModels := names;
    mm.matchedCount := |names|;
  }

  // ---------- the passes ----------

  function Present(models: seq<ModelMeta?>): set<ModelMeta> {
    set mm: ModelMeta | mm in models
  }

  predicate IsExact(models: seq<ModelMeta?>, i: nat)
    requires i < |models|
  {
    models[i] != null && models[i].nameRule == NAME_RULE_EXACT
  }

  predicate IsRule(models: seq<ModelMeta?>, i: nat)
    requires i < |models|
  {
    models[i] != null && models[i].nameRule != NAME_RULE_EXACT
  }

  /** The indices recorded for a name: all exact records with that name so far. */
  ghost predicate IndicesOf(models: seq<ModelMeta?>, n: nat, name: string, indices: seq<nat>)
    requires n <= |models|
  {
    forall i: nat :: i in indices <==> i < n && IsExact(models, i) && models[i].modelName == name
  }

  function Indices(exactIdx: map<string, seq<nat>>, name: string): seq<nat> {
    if name in exactIdx then exactIdx[name] else []
  }

  ghost predicate RulesUpTo(models: seq<ModelMeta?>, n: nat, ruleIndices: seq<nat>)
    requires n <= |models|
  {
    Distinct(ruleIndices) && forall i: nat :: i in ruleIndices <==> i < n && IsRule(models, i)
  }

  /** Telling exact names from rules. */
  method Split(models: seq<ModelMeta?>)
      returns (exactNames: seq<string>, exactIdx: map<string, seq<nat>>, ruleIndices: seq<nat>)
    ensures forall name :: name in exactIdx ==> name in exactNames
    ensures forall name :: IndicesOf(models, |models|, name, Indices(exactIdx, name))
    ensures RulesUpTo(models, |models|, ruleIndices)
  {
    exactNames, exactIdx, ruleIndices := [], map[], [];
    for i := 0 to |models|
      invariant forall name :: name in exactIdx ==> name in exactNames
      invariant forall name :: IndicesOf(models, i, name, Indices(exactIdx, name))
      invariant RulesUpTo(models, i, ruleIndices)
    {
      var m := models[i];
      ghost var before := exactIdx;
      if m != null {
        if m.nameRule == NAME_RULE_EXACT {
          exactNames := exactNames + [m.modelName];
          exactIdx := exactIdx[m.modelName := Indices(exactIdx, m.modelName) + [i]];
        } else {
          assert i !in ruleIndices;
          ruleIndices := ruleIndices + [i];
        }
      }
      forall name
        ensures IndicesOf(models, i + 1, name, Indices(exactIdx, name))
      {
        assert IndicesOf(models, i, name, Indices(before, name));
      }
    }
  }

  /** One price against one rule model. */
  method MatchOne(found: map<nat, Match>, idx: nat, rule: int, pattern: string, pricings: seq<Pricing>, n: nat)
      returns (next: map<nat, Match>)
    requires n < |pricings| && FoundIs(found, idx, MatchUpTo(rule, pattern, pricings, n))
    ensures FoundIs(next, idx, MatchUpTo(rule, pattern, pricings, n + 1))
    ensures forall i :: i != idx ==> (i in next <==> i in found) && (i in found ==> next[i] == found[i])
  {
    var p := pricings[n];
    next := found;
    if Matches(rule, pattern, p.modelName) {
      if idx !in next {
        next := next[idx := NO_MATCH];
      }
      next := next[idx := Extend(next[idx], p)];
    }
  }

  function MatchAt(models: seq<ModelMeta?>, i: nat, pricings: seq<Pricing>, n: nat): Match
    requires n <= |pricings|
  {
    if i < |models| && IsRule(models, i) then MatchUpTo(models[i].nameRule, models[i].modelName, pricings, n)
    else NO_MATCH
  }

  /** The pass over the price list for all rule models together. */
  method CollectMatches(models: seq<ModelMeta?>, ruleIndices: seq<nat>, pricings: seq<Pricing>)
      returns (found: map<nat, Match>)
    requires RulesUpTo(models, |models|, ruleIndices)
    ensures forall i: nat :: FoundIs(found, i, MatchAt(models, i, pricings, |pricings|))
  {
    found := map[];
    for n := 0 to |pricings|
      invariant forall i: nat :: FoundIs(found, i, MatchAt(models, i, pricings, n))
    {
      for k := 0 to |ruleIndices|
        invariant forall i: nat :: FoundIs(found, i, MatchAt(models, i, pricings,
          if i in ruleIndices[..k] then n + 1 else n))
      {
        assert ruleIndices[k] in ruleIndices;
        var mm := models[ruleIndices[k]];
        assert ruleIndices[k] !in ruleIndices[..k];
        assert ruleIndices[..k + 1] == ruleIndices[..k] + [ruleIndices[k]];
        assert FoundIs(found, ruleIndices[k], MatchAt(models, ruleIndices[k], pricings, n));
        found := MatchOne(found, ruleIndices[k], mm.nameRule, mm.modelName, pricings, n);
      }
      assert ruleIndices[..|ruleIndices|] == ruleIndices;
      ghost var next := n + 1;
      forall i: nat
        ensures FoundIs(found, i, MatchAt(models, i, pricings, next))
      {
        assert FoundIs(found, i, MatchAt(models, i, pricings, if i in ruleIndices then n + 1 else n));
        assert i !in ruleIndices ==> MatchAt(models, i, pricings, n) == NO_MATCH;
      }
    }
  }

  /** All matched names, for the one channel query. */
  method CollectNames(found: map<nat, Match>) returns (allMatched: seq<string>)
    ensures forall i, name :: i in found && name in found[i].names ==> name in allMatched
  {
    var allMatchedSet: set<string> := {};
    var pending := found.Keys;
    while pending != {}
      invariant pending <= found.Keys
      invariant forall i, name :: i in found && i !in pending && name in found[i].names ==> name in allMatchedSet
      decreases |pending|
    {
      var i :| i in pending;
      allMatchedSet := allMatchedSet + set name | name in found[i].names;
      pending := pending - {i};
    }
    allMatched := ListSet(allMatchedSet);
  }

  /** Every record is as at the start or enriched, the ones done are enriched. */
  ghost predicate Progress(records: set<ModelMeta>, done: set<ModelMeta>, start: map<ModelMeta, Meta>,
      pricings: seq<Pricing>, s: Sources)
    reads records
  {
    forall mm :: mm in records ==>
      mm in start
      && Underway(start[mm], mm.Value(), pricings, s)
      && (mm in done ==> Enriched(start[mm], mm.Value(), pricings, s))
  }

  lemma StepDone(start: Meta, before: Meta, after: Meta, pricings: seq<Pricing>, s: Sources)
    requires before == start || Enriched(start, before, pricings, s)
    requires Enriched(before, after, pricings, s)
    ensures Enriched(start, after, pricings, s)
  {
    if before != start {
      EnrichedTwice(start, before, after, pricings, s);
    }
  }

  ghost predicate Underway(start: Meta, v: Meta, pricings: seq<Pricing>, s: Sources) {
    v == start || Enriched(start, v, pricings, s)
  }

  method AdvanceExact(mm: ModelMeta, chs: seq<BoundChannel>, pricings: seq<Pricing>, s: Sources, ghost start: Meta)
    requires mm.nameRule == NAME_RULE_EXACT && chs == if s.exactQuery then s.bound(mm.modelName) else []
    requires Underway(start, mm.Value(), pricings, s)
    modifies mm
    ensures Enriched(start, mm.Value(), pricings, s)
  {
    ghost var before := mm.Value();
    FillExact(mm, chs, s);
    StepDone(start, before, mm.Value(), pricings, s);
  }

  method AdvanceRule(mm: ModelMeta, idx: nat, found: map<nat, Match>, channels: map<string, seq<BoundChannel>>,
                     pricings: seq<Pricing>, s: Sources, ghost start: Meta)
    requires mm.nameRule != NAME_RULE_EXACT && FoundIs(found, idx, MatchOf(mm.nameRule, mm.modelName, pricings))
    requires forall name :: idx in found && name in found[idx].names ==>
      Lookup(channels, name) == if s.ruleQuery then s.bound(name) else []
    requires Underway(start, mm.Value(), pricings, s)
    modifies mm
    ensures Enriched(start, mm.Value(), pricings, s)
  {
    ghost var before := mm.Value();
    FillRule(mm, idx, found, channels, pricings, s);
    StepDone(start, before, mm.Value(), pricings, s);
  }

  /** The records of one exact name. */
  method FillName(models: seq<ModelMeta?>, name: string, indices: seq<nat>, chs: seq<BoundChannel>,
                  pricings: seq<Pricing>, s: Sources, ghost start: map<ModelMeta, Meta>, ghost before: set<ModelMeta>)
    returns (ghost done: set<ModelMeta>)
    requires IndicesOf(models, |models|, name, indices)
    requires chs == if s.exactQuery then s.bound(name) else []
    requires Progress(Present(models), before, start, pricings, s)
    modifies Present(models)
    ensures Progress(Present(models), done, start, pricings, s)
    ensures before <= done && forall i :: i in indices ==> models[i] in done
  {
    done := before;
    for k := 0 to |indices|
      invariant Progress(Present(models), done, start, pricings, s)
      invariant before <= done && forall j :: 0 <= j < k ==> indices[j] in indices && models[indices[j]] in done
    {
      assert indices[k] in indices;
      var mm := models[indices[k]];
      AdvanceExact(mm, chs, pricings, s, start[mm]);
      done := done + {mm};
    }
  }

  /** Step 3: the exact names, one after the other. */
  method FillExacts(models: seq<ModelMeta?>, exactIdx: map<string, seq<nat>>, channels: map<string, seq<BoundChannel>>,
                    pricings: seq<Pricing>, s: Sources, ghost start: map<ModelMeta, Meta>)
    returns (ghost done: set<ModelMeta>)
    requires forall name :: IndicesOf(models, |models|, name, Indices(exactIdx, name))
    requires forall name :: name in exactIdx ==> Lookup(channels, name) == if s.exactQuery then s.bound(name) else []
    requires Progress(Present(models), {}, start, pricings, s)
    modifies Present(models)
    ensures Progress(Present(models), done, start, pricings, s)
    ensures forall i :: 0 <= i < |models| && IsExact(models, i) ==> models[i] in done
  {
    done := {};
    var pending := exactIdx.Keys;
    while pending != {}
      invariant pending <= exactIdx.Keys
      invariant Progress(Present(models), done, start, pricings, s)
      invariant forall name, i :: name in exactIdx && name !in pending && i in exactIdx[name] && i < |models| ==>
        models[i] in done
      decreases |pending|
    {
      var name :| name in pending;
      assert IndicesOf(models, |models|, name, Indices(exactIdx, name));
      done := FillName(models, name, exactIdx[name], Lookup(channels, name), pricings, s, start, done);
      pending := pending - {name};
    }
    forall i | 0 <= i < |models| && IsExact(models, i)
      ensures models[i] in done
    {
      assert IndicesOf(models, |models|, models[i].modelName, Indices(exactIdx, models[i].modelName));
      assert i in exactIdx[models[i].modelName];
    }
  }

  /** Step 6: the rule models. */
  method FillRules(models: seq<ModelMeta?>, ruleIndices: seq<nat>, found: map<nat, Match>,
      channels: map<string, seq<BoundChannel>>,
                   pricings: seq<Pricing>, s: Sources, ghost start: map<ModelMeta, Meta>, ghost before: set<ModelMeta>)
    returns (ghost done: set<ModelMeta>)
    requires RulesUpTo(models, |models|, ruleIndices)
    requires forall i: nat :: FoundIs(found, i, MatchAt(models, i, pricings, |pricings|))
    requires forall i, name :: i in found && name in found[i].names ==>
      Lookup(channels, name) == if s.ruleQuery then s.bound(name) else []
    requires Progress(Present(models), before, start, pricings, s)
    modifies Present(models)
    ensures Progress(Present(models), done, start, pricings, s)
    ensures before <= done && forall i :: i in ruleIndices ==> models[i] in done
  {
    done := before;
    for k := 0 to |ruleIndices|
      invariant Progress(Present(models), done, start, pricings, s)
      invariant before <= done && forall j :: 0 <= j < k ==>
        ruleIndices[j] in ruleIndices && models[ruleIndices[j]] in done
    {
      assert ruleIndices[k] in ruleIndices;
      var mm := models[ruleIndices[k]];
      assert FoundIs(found, ruleIndices[k], MatchAt(models, ruleIndices[k], pricings, |pricings|));
      AdvanceRule(mm, ruleIndices[k], found, channels, pricings, s, start[mm]);
      done := done + {mm};
    }
  }

  /** The passes one after the other. */
  method RunPasses(models: seq<ModelMeta?>, pricings: seq<Pricing>, s: Sources, ghost start: map<ModelMeta, Meta>)
    returns (ghost done: set<ModelMeta>)
    requires Progress(Present(models), {}, start, pricings, s)
    modifies Present(models)
    ensures Progress(Present(models), done, start, pricings, s) && Present(models) <= done
  {
    var exactNames, exactIdx, ruleIndices := Split(models);
    var channelsByModel := Query(exactNames, s.exactQuery, s);
    done := FillExacts(models, exactIdx, channelsByModel, pricings, s, start);
    if |ruleIndices| > 0 {
      var found := CollectMatches(models, ruleIndices, pricings);
      var allMatched := CollectNames(found);
      var matchedChannelsByModel := Query(allMatched, s.ruleQuery, s);
      done := FillRules(models, ruleIndices, found, matchedChannelsByModel, pricings, s, start, done);
    }
    forall i | 0 <= i < |models| && models[i] != null
      ensures models[i] in done
    {
      assert IsExact(models, i) || i in ruleIndices;
    }
  }

  /** enrichModels: the batched passes give every record what computing it on its own would. */
  method EnrichModels(models: seq<ModelMeta?>, pricings: seq<Pricing>, s: Sources)
    modifies Present(models)
    ensures forall i :: 0 <= i < |models| && models[i] != null ==>
      Enriched(old(models[i].Value()), models[i].Value(), pricings, s)
    // the rules in terms of the texts
    ensures forall i, name :: 0 <= i < |models| && models[i] != null && models[i].nameRule != 0 ==>
      (name in models[i].matchedModels <==>
         && (exists j :: 0 <= j < |pricings| && pricings[j].modelName == name)
         && (|| (models[i].nameRule == 1 && exists t :: name == models[i].modelName + t)
             || (models[i].nameRule == 2 && exists a, b :: name == a + models[i].modelName + b)
             || (models[i].nameRule == 3 && exists t :: name == t + models[i].modelName)))
    ensures forall i :: 0 <= i < |models| && models[i] != null && models[i].nameRule != 0 ==>
      models[i].matchedCount == |models[i].matchedModels|
  {
    if |models| == 0 {
      return;
    }
    ghost var start := map mm | mm in Present(models) :: mm.Value();
    ghost var done := RunPasses(models, pricings, s, start);
    forall i | 0 <= i < |models| && models[i] != null
      ensures Enriched(old(models[i].Value()), models[i].Value(), pricings, s)
    {
      assert models[i] in Present(models);
    }
    forall i, name | 0 <= i < |models| && models[i] != null && models[i].nameRule != 0 {
      MatchedByRule(old(models[i].Value()), models[i].Value(), pricings, s, name);
    }
  }
}
