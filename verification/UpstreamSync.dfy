/** Reconciling a channel's model list with its upstream: detection of pending additions
    and removals, automatic addition, and applying a selection of the pending changes. */
module UpstreamSync {
  import opened Basics
  import opened Text
  import opened ModelNames

  /** Does the pattern of a "regex:" rule match a model name?  Invalid patterns match nothing. */
  type Matcher = (string, string) -> bool

  const REGEX_PREFIX := "regex:"

  predicate IsRegexRule(rule: string) {
    REGEX_PREFIX <= rule
  }

  predicate RuleMatches(rule: string, model: string, matches: Matcher) {
    if IsRegexRule(rule) then matches(TrimSpace(rule[|REGEX_PREFIX|..]), model) else rule == model
  }

  predicate Ignored(rules: set<string>, model: string, matches: Matcher) {
    exists rule :: rule in rules && RuleMatches(rule, model, matches)
  }

  /** What stays the same for a channel: the model redirections, source to target, and
      whether new models are added automatically. */
  datatype Config = Config(redirect: map<string, string>, autoSync: bool, matches: Matcher)

  // ---------- detection ----------

  /** Names present locally or reached through a redirection. */
  function Covered(local: seq<string>, c: Config): set<string> {
    Names(local) + c.redirect.Values
  }

  function PendingAdd(local: seq<string>, upstream: seq<string>, ignored: seq<string>, c: Config): seq<string> {
    var rules := Names(ignored);
    var drop := set k | k in Names(upstream) && (k in Covered(local, c) || Ignored(rules, k, c.matches));
    Without(Normalize(upstream), drop)
  }

  function PendingRemove(local: seq<string>, upstream: seq<string>, c: Config): seq<string> {
    Without(Normalize(local), c.redirect.Keys + Names(upstream))
  }

  /** Pending additions are the upstream names neither present, nor the target of a
      redirection, nor ignored; pending removals are the local names that are neither
      upstream nor a redirection source. */
  lemma PendingFacts(local: seq<string>, upstream: seq<string>, ignored: seq<string>, c: Config)
    ensures var add, rem := PendingAdd(local, upstream, ignored, c), PendingRemove(local, upstream, c);
      && Clean(add) && Clean(rem)
      && (forall k :: k in add <==>
            k in Names(upstream) && k !in Names(local) && k !in c.redirect.Values
            && !Ignored(Names(ignored), k, c.matches))
      && (forall k :: k in rem <==> k in Names(local) && k !in c.redirect && k !in Names(upstream))
  {
    var drop := set k | k in Names(upstream) && (k in Covered(local, c) || Ignored(Names(ignored), k, c.matches));
    NormalizeFacts(upstream);
    NormalizeFacts(local);
    WithoutFacts(Normalize(upstream), drop);
    WithoutFacts(Normalize(local), c.redirect.Keys + Names(upstream));
  }

  /** A model is ignored when the rules name it, or when one of them is "regex:" followed by
      a pattern that matches it. */
  lemma IgnoredIff(rules: set<string>, model: string, matches: Matcher)
    ensures Ignored(rules, model, matches) <==>
      (model in rules && !("regex:" <= model))
      || exists pattern: string :: "regex:" + pattern in rules && matches(TrimSpace(pattern), model)
  {
    forall rule | rule in rules && IsRegexRule(rule) && RuleMatches(rule, model, matches)
      ensures exists pattern: string :: "regex:" + pattern in rules && matches(TrimSpace(pattern), model)
    {
      assert rule == "regex:" + rule[6..];
    }
    forall pattern: string | "regex:" + pattern in rules && matches(TrimSpace(pattern), model)
      ensures RuleMatches("regex:" + pattern, model, matches)
    {
      assert ("regex:" + pattern)[6..] == pattern;
    }
  }

  // ---------- the stored channel ----------

  /** `models` is the comma-joined list; the rest are the stored settings. */
  datatype Row = Row(models: string, ignored: seq<string>, detected: seq<string>, removed: seq<string>, lastCheck: int)

  /** channel.GetModels */
  function Local(row: Row): seq<string> {
    Fields(row.models, ',')
  }

  /** One completed check: detection, and automatic addition when allowed and enabled. */
  function Checked(row: Row, upstream: seq<string>, c: Config, now: int, allowAuto: bool): Row {
    var add := PendingAdd(Local(row), upstream, row.ignored, c);
    var rem := PendingRemove(Local(row), upstream, c);
    if allowAuto && c.autoSync && add != []
    then row.(models := Join(Merge(Local(row), add), ','), detected := [], removed := rem, lastCheck := now)
    else row.(detected := add, removed := rem, lastCheck := now)
  }

  datatype Selection = Selection(add: seq<string>, ignore: seq<string>, remove: seq<string>)

  /** The part of a request that concerns pending changes; addition wins over removal. */
  function Effective(row: Row, req: Selection): Selection {
    var add := Intersect(req.add, Normalize(row.detected));
    Selection(add,
      Intersect(req.ignore, Normalize(row.detected)),
      Subtract(Intersect(req.remove, Normalize(row.removed)), add))
  }

  function NextModels(row: Row, sel: Selection): seq<string> {
    ApplySelected(Normalize(Local(row)), sel.add, sel.remove)
  }

  function Applied(row: Row, req: Selection, now: int): Row {
    var sel := Effective(row, req);
    var origin := Normalize(Local(row));
    var next := NextModels(row, sel);
    var ignored := Merge(row.ignored, sel.ignore);
    Row(if next == origin then row.models else Join(next, ','),
        if sel.add != [] then Subtract(ignored, sel.add) else ignored,
        Subtract(Normalize(row.detected), sel.add + sel.ignore),
        Subtract(Normalize(row.removed), sel.remove),
        now)
  }

  predicate TooSoon(lastCheck: int, now: int, force: bool, minInterval: int) {
    !force && lastCheck > 0 && now - lastCheck < minInterval
  }

  /** The set of models changes. */
  predicate ModelsMove(row: Row, sel: Selection) {
    Names(NextModels(row, sel)) != Names(Local(row))
  }

  /** The channel as the check and apply functions update it in the database. */
  class UpstreamChannel {
    var models: string
    var ignored: seq<string>
    var detected: seq<string>
    var removed: seq<string>
    var lastCheck: int
    const config: Config

    function View(): Row
      reads this
    {
      Row(models, ignored, detected, removed, lastCheck)
    }

    method Store(row: Row)
      modifies this
      ensures View() == row
    {
      models, ignored, detected, removed, lastCheck :=
        row.models, row.ignored, row.detected, row.removed, row.lastCheck;
    }

    /** checkAndPersistChannelUpstreamModelUpdates.  `fetched` is the upstream answer, if
        any; `stored` and `indexed` tell whether the settings could be written and whether
        the ability table could then be updated. */
    method Check(fetched: Option<seq<string>>, now: int, force: bool, allowAuto: bool, minInterval: int,
                 stored: bool, indexed: bool)
      returns (modelsChanged: bool, autoAdded: nat, ok: bool)
      modifies this
      ensures var skip := !force && old(lastCheck) > 0 && now - old(lastCheck) < minInterval;
        && (if skip || !stored then View() == old(View())
            else if fetched.None? then View() == old(View()).(lastCheck := now)
            else View() == Checked(old(View()), fetched.value, config, now, allowAuto))
        && autoAdded == (if !skip && fetched.Some? && allowAuto && config.autoSync
                         then |PendingAdd(Local(old(View())), fetched.value, old(ignored), config)| else 0)
        && (modelsChanged <==> stored && autoAdded > 0)
        && (ok <==> skip || (fetched.Some? && stored && (modelsChanged ==> indexed)))
    {
      if TooSoon(lastCheck, now, force, minInterval) {
        return false, 0, true;
      }
      if fetched.None? {
        if stored {
          lastCheck := now;
        }
        return false, 0, false;
      }
      var local := Fields(models, ',');
      var pendingAdd := PendingAdd(local, fetched.value, ignored, config);
      var pendingRemove := PendingRemove(local, fetched.value, config);
      modelsChanged, autoAdded := false, 0;
      var newModels := models;
      var newDetected := pendingAdd;
      if allowAuto && config.autoSync && |pendingAdd| > 0 {
        var origin := Normalize(local);
        var merged := MergeModelNames(origin, pendingAdd);
        AutoMerge(local, fetched.value, ignored, config);
        if |merged| > |origin| {
          newModels := Join(merged, ',');
          autoAdded := |merged| - |origin|;
          modelsChanged := true;
        }
        newDetected := [];
      }
      if !stored {
        return false, autoAdded, false;
      }
      models, detected, removed, lastCheck := newModels, newDetected, pendingRemove, now;
      ok := !modelsChanged || indexed;
    }

    /** applyChannelUpstreamModelUpdates; a failing ability update is reported after the
        channel is stored. */
    method Apply(req: Selection, now: int, stored: bool, indexed: bool)
      returns (done: Selection, modelsChanged: bool, ok: bool)
      modifies this
      ensures View() == if stored then Applied(old(View()), req, now) else old(View())
      ensures done == if stored then Effective(old(View()), req) else Selection([], [], [])
      ensures modelsChanged <==> stored && ModelsMove(old(View()), done)
      ensures ok <==> stored && (modelsChanged ==> indexed)
    {
      var row := View();
      var next;
      done, next, modelsChanged := Plan(row, req, now);
      if !stored {
        return Selection([], [], []), false, false;
      }
      Store(next);
      ok := !modelsChanged || indexed;
    }
  }

  /** The new values that Apply computes before it stores them. */
  method Plan(row: Row, req: Selection, now: int) returns (done: Selection, next: Row, modelsChanged: bool)
    ensures next == Applied(row, req, now) && done == Effective(row, req)
    ensures modelsChanged <==> ModelsMove(row, done)
  {
    var pendingAdd := Normalize(row.detected);
    var pendingRemove := Normalize(row.removed);
    var addModels := Intersect(req.add, pendingAdd);
    var ignoreModels := Intersect(req.ignore, pendingAdd);
    var removeModels := Subtract(Intersect(req.remove, pendingRemove), addModels);
    done := Selection(addModels, ignoreModels, removeModels);

    var originModels := Normalize(Fields(row.models, ','));
    var nextModels := ApplySelected(originModels, addModels, removeModels);
    modelsChanged := originModels != nextModels;
    NormalizeFacts(Fields(row.models, ','));
    SameListIffSameSet(originModels, addModels, removeModels);
    var models := row.models;
    if modelsChanged {
      models := Join(nextModels, ',');
    }
    var ignored := MergeModelNames(row.ignored, ignoreModels);
    if |addModels| > 0 {
      ignored := Subtract(ignored, addModels);
    }
    next := Row(models, ignored,
                Subtract(pendingAdd, addModels + ignoreModels), Subtract(pendingRemove, removeModels), now);
  }

  /** What automatic addition merges: every pending model is new, so each counts. */
  lemma AutoMerge(local: seq<string>, upstream: seq<string>, ignored: seq<string>, c: Config)
    ensures var add := PendingAdd(local, upstream, ignored, c);
      && Merge(Normalize(local), add) == Merge(local, add)
      && |Merge(local, add)| == |Normalize(local)| + |add|
  {
    var add := PendingAdd(local, upstream, ignored, c);
    PendingFacts(local, upstream, ignored, c);
    NormalizeFacts(local);
    NormalizeFixpoint(Normalize(local));
    FreshOfClean(Names(local), add);
  }

  // ---------- what every step keeps ----------

  predicate CommaFree(names: seq<string>) {
    forall k :: k in names ==> ',' !in k
  }

  /** Pending lists are clean and current: nothing pending for addition is present or
      plainly ignored, and everything pending for removal is present. */
  ghost predicate Current(row: Row) {
    && Clean(row.detected) && Clean(row.removed)
    && (forall k :: k in row.detected ==> k !in Names(Local(row)))
    && (forall k :: k in row.detected && k in Names(row.ignored) ==> IsRegexRule(k))
    && (forall k :: k in row.removed ==> k in Names(Local(row)))
  }

  ghost predicate Inv(row: Row) {
    Current(row) && CommaFree(row.detected)
  }

  // ---------- names that contain a comma ----------

  /** The names that a list becomes when it is stored as one text. */
  function Pieces(names: seq<string>): set<string> {
    set n, k | n in names && k in Names(Split(n, ',')) :: k
  }

  lemma {:induction false} TrimLeftPieces(text: string)
    ensures Names(Split(TrimLeft(text, c => c == ','), ',')) == Names(Split(text, ','))
  {
    if text != "" && text[0] == ',' {
      TrimLeftPieces(text[1..]);
      NamesOfConcat([""], Split(text[1..], ','));
    }
  }

  lemma {:induction false} TrimRightPieces(text: string)
    ensures Names(Split(TrimRight(text, c => c == ','), ',')) == Names(Split(text, ','))
  {
    if text != "" && text[|text| - 1] == ',' {
      var head := text[..|text| - 1];
      TrimRightPieces(head);
      assert text == head + [','] + "";
      SplitTwo(head, "", ',');
      NamesOfConcat(Split(head, ','), [""]);
    }
  }

  lemma {:induction false} JoinPieces(names: seq<string>)
    ensures Names(Split(Join(names, ','), ',')) == Pieces(names)
  {
    if |names| == 1 {
      assert names == [names[0]];
    } else if |names| > 1 {
      JoinPieces(names[1..]);
      SplitTwo(names[0], Join(names[1..], ','), ',');
      NamesOfConcat(Split(names[0], ','), Split(Join(names[1..], ','), ','));
      assert names == [names[0]] + names[1..];
    }
  }

  /** The stored names are the comma-separated pieces of the names. */
  lemma StoredNames(names: seq<string>)
    ensures Names(Fields(Join(names, ','), ',')) == Pieces(names)
  {
    var text := Join(names, ',');
    JoinPieces(names);
    TrimLeftPieces(text);
    TrimRightPieces(TrimLeft(text, c => c == ','));
  }

  predicate Whole(k: string) {
    ',' !in k && TrimSpace(k) == k != ""
  }

  lemma OnePiece(k: string)
    requires Whole(k)
    ensures Names(Split(k, ',')) == {k}
  {
    SplitWhole(k, ',');
    assert Names([k]) == {k};
  }

  /** Names without a comma stay themselves. */
  lemma PiecesOf(names: seq<string>, kept: set<string>, added: seq<string>)
    requires forall k :: k in names <==> k in added || k in kept
    requires forall k :: k in kept ==> Whole(k)
    ensures forall k :: k in Pieces(names) <==> k in Pieces(added) || k in kept
  {
    forall k | k in kept
      ensures Names(Split(k, ',')) == {k}
    {
      OnePiece(k);
    }
  }

  lemma PiecesOfClean(names: seq<string>)
    requires Clean(names) && CommaFree(names)
    ensures forall k :: k in Pieces(names) <==> k in names
  {
    PiecesOf(names, Names(names), []);
    NamesOfClean(names);
  }

  lemma LocalWhole(row: Row)
    ensures forall k :: k in Names(Local(row)) ==> Whole(k)
  {
    LocalCommaFree(row);
    NormalizeFacts(Local(row));
  }

  lemma LocalCommaFree(row: Row)
    ensures forall k :: k in Names(Local(row)) ==> ',' !in k
  {
    forall k | k in Names(Local(row))
      ensures ',' !in k
    {
      var f :| f in Local(row) && TrimSpace(f) == k;
    }
  }

  /** A clean comma-free list survives being stored in the models text. */
  lemma StoredList(names: seq<string>)
    requires Clean(names) && CommaFree(names)
    ensures Fields(Join(names, ','), ',') == names
  {
    if names != [] {
      assert names[0] in names && names[|names| - 1] in names;
    }
    FieldsJoin(names, ',');
  }

  /** The local names after automatic addition. */
  lemma CheckedPieces(row: Row, upstream: seq<string>, c: Config, now: int, allowAuto: bool)
    ensures var add := PendingAdd(Local(row), upstream, row.ignored, c);
      forall k :: k in Names(Local(Checked(row, upstream, c, now, allowAuto))) <==>
        k in Names(Local(row)) || (allowAuto && c.autoSync && k in Pieces(add))
  {
    var add := PendingAdd(Local(row), upstream, row.ignored, c);
    if allowAuto && c.autoSync && add != [] {
      MergedPieces(row, upstream, c);
      StoredNames(Merge(Local(row), add));
    }
  }

  lemma MergedPieces(row: Row, upstream: seq<string>, c: Config)
    ensures var add := PendingAdd(Local(row), upstream, row.ignored, c);
      forall k :: k in Pieces(Merge(Local(row), add)) <==> k in Names(Local(row)) || k in Pieces(add)
  {
    var add := PendingAdd(Local(row), upstream, row.ignored, c);
    PendingFacts(Local(row), upstream, row.ignored, c);
    MergeFacts(Local(row), add);
    NamesOfClean(add);
    NamesOfClean(Merge(Local(row), add));
    LocalWhole(row);
    PiecesOf(Merge(Local(row), add), Names(Local(row)), add);
  }

  lemma CheckedLocal(row: Row, upstream: seq<string>, c: Config, now: int, allowAuto: bool)
    requires forall k :: k in Names(upstream) ==> ',' !in k
    ensures var row' := Checked(row, upstream, c, now, allowAuto);
      var add := PendingAdd(Local(row), upstream, row.ignored, c);
      && (row'.models != row.models ==> Clean(Local(row')))
      && forall k :: k in Names(Local(row')) <==> k in Names(Local(row)) || (allowAuto && c.autoSync && k in add)
  {
    var add := PendingAdd(Local(row), upstream, row.ignored, c);
    PendingFacts(Local(row), upstream, row.ignored, c);
    CheckedPieces(row, upstream, c, now, allowAuto);
    PiecesOfClean(add);
    LocalCommaFree(row);
    NamesOfClean(add);
    MergeFacts(Local(row), add);
    NamesOfClean(Merge(Local(row), add));
    StoredList(Merge(Local(row), add));
  }

  /** A check makes the pending lists current, whatever they were. */
  lemma CheckKeeps(row: Row, upstream: seq<string>, c: Config, now: int, allowAuto: bool)
    ensures Current(Checked(row, upstream, c, now, allowAuto))
  {
    var row' := Checked(row, upstream, c, now, allowAuto);
    PendingFacts(Local(row), upstream, row.ignored, c);
    CheckedPieces(row, upstream, c, now, allowAuto);
    forall k | k in row'.detected && k in Names(row'.ignored)
      ensures IsRegexRule(k)
    {
      assert !RuleMatches(k, k, c.matches);
    }
  }

  /** What a check stores: the pending removals in any case; with automatic addition nothing
      is left to add, otherwise the pending additions are and the models stay. */
  lemma CheckedSettings(row: Row, upstream: seq<string>, c: Config, now: int, allowAuto: bool, k: string)
    ensures var row' := Checked(row, upstream, c, now, allowAuto);
      && row'.lastCheck == now && row'.ignored == row.ignored
      && (k in row'.removed <==> k in Names(Local(row)) && k !in c.redirect && k !in Names(upstream))
      && (allowAuto && c.autoSync ==> k !in row'.detected)
      && (!(allowAuto && c.autoSync) ==>
            && row'.models == row.models
            && (k in row'.detected <==>
                  k in Names(upstream) && k !in Names(Local(row)) && k !in c.redirect.Values
                  && !Ignored(Names(row.ignored), k, c.matches)))
  {
    PendingFacts(Local(row), upstream, row.ignored, c);
  }

  /** The names after a selection is applied, whatever the names contain. */
  lemma AppliedPieces(row: Row, req: Selection, now: int)
    ensures var sel := Effective(row, req);
      forall k :: k in Names(Local(Applied(row, req, now))) <==>
        k in Pieces(sel.add) || (k in Names(Local(row)) && k !in sel.remove)
  {
    var next := NextModels(row, Effective(row, req));
    NextPieces(row, req);
    if next == Normalize(Local(row)) {
      NormalizeFacts(Local(row));
      LocalCommaFree(row);
      PiecesOfClean(next);
    } else {
      StoredNames(next);
    }
  }

  lemma NextPieces(row: Row, req: Selection)
    ensures var sel := Effective(row, req);
      forall k :: k in Pieces(NextModels(row, sel)) <==>
        k in Pieces(sel.add) || (k in Names(Local(row)) && k !in sel.remove)
  {
    var sel := Effective(row, req);
    NextFacts(row, req);
    LocalWhole(row);
    PiecesOf(NextModels(row, sel), (set k | k in Names(Local(row)) && k !in sel.remove), sel.add);
  }

  lemma NextFacts(row: Row, req: Selection)
    ensures var sel := Effective(row, req); var next := NextModels(row, sel);
      && Clean(next) && Clean(sel.add)
      && forall k :: k in next <==> k in sel.add || (k in Names(Local(row)) && k !in sel.remove)
  {
    var sel := Effective(row, req);
    SelectionFacts(row, req);
    NormalizeFacts(Local(row));
    NamesOfClean(sel.add);
    NamesOfClean(sel.remove);
    ApplySelectedFacts(Normalize(Local(row)), sel.add, sel.remove);
    NamesOfClean(NextModels(row, sel));
  }

  /** The names after a selection is applied; an addition is never undone by a removal. */
  lemma AppliedLocal(row: Row, req: Selection, now: int)
    requires CommaFree(row.detected)
    ensures var sel := Effective(row, req);
      && (forall k :: k in sel.add <==> k in Names(req.add) && k in Names(row.detected))
      && (forall k :: k in sel.ignore <==> k in Names(req.ignore) && k in Names(row.detected))
      && (forall k :: k in sel.remove <==> k in Names(req.remove) && k in Names(row.removed) && k !in sel.add)
      && Clean(sel.add) && Clean(sel.ignore) && Clean(sel.remove)
      && (forall k :: k in Names(Local(Applied(row, req, now))) <==>
            k in sel.add || (k in Names(Local(row)) && k !in sel.remove))
      && (Applied(row, req, now).models != row.models ==> Clean(Local(Applied(row, req, now))))
  {
    var sel := Effective(row, req);
    var next := NextModels(row, sel);
    SelectionFacts(row, req);
    NextFacts(row, req);
    AppliedPieces(row, req, now);
    LocalCommaFree(row);
    forall k | k in next
      ensures ',' !in k
    {
      if k in sel.add {
        PieceOf(row.detected, k);
      }
    }
    PiecesOfClean(sel.add);
    StoredList(next);
  }

  lemma SelectionFacts(row: Row, req: Selection)
    ensures var sel := Effective(row, req);
      && (forall k :: k in sel.add <==> k in Names(req.add) && k in Names(row.detected))
      && (forall k :: k in sel.ignore <==> k in Names(req.ignore) && k in Names(row.detected))
      && (forall k :: k in sel.remove <==> k in Names(req.remove) && k in Names(row.removed) && k !in sel.add)
      && Clean(sel.add) && Clean(sel.ignore) && Clean(sel.remove)
  {
    var sel := Effective(row, req);
    NormalizeFacts(row.detected);
    NormalizeFacts(row.removed);
    IntersectFacts(req.add, Normalize(row.detected));
    IntersectFacts(req.ignore, Normalize(row.detected));
    IntersectFacts(req.remove, Normalize(row.removed));
    NamesOfClean(Intersect(req.remove, Normalize(row.removed)));
    SubtractFacts(Intersect(req.remove, Normalize(row.removed)), sel.add);
    NamesOfClean(sel.add);
  }

  lemma PieceOf(names: seq<string>, k: string)
    requires CommaFree(names) && k in Names(names)
    ensures ',' !in k
  {
    var n :| n in names && TrimSpace(n) == k;
  }

  /** The settings after a selection is applied. */
  lemma AppliedSettings(row: Row, req: Selection, now: int)
    ensures var sel, row' := Effective(row, req), Applied(row, req, now);
      && Clean(row'.ignored) && Clean(row'.detected) && Clean(row'.removed) && row'.lastCheck == now
      && (forall k :: k in row'.ignored <==> (k in Names(row.ignored) || k in sel.ignore) && k !in sel.add)
      && (forall k :: k in row'.detected <==> k in Names(row.detected) && k !in sel.add && k !in sel.ignore)
      && (forall k :: k in row'.removed <==> k in Names(row.removed) && k !in sel.remove)
  {
    var sel := Effective(row, req);
    SelectionFacts(row, req);
    NormalizeFacts(row.detected);
    NormalizeFacts(row.removed);
    NamesOfClean(sel.add);
    NamesOfClean(sel.ignore);
    NamesOfClean(sel.remove);
    MergeFacts(row.ignored, sel.ignore);
    NamesOfClean(Merge(row.ignored, sel.ignore));
    SubtractFacts(Merge(row.ignored, sel.ignore), sel.add);
    NamesOfConcat(sel.add, sel.ignore);
    SubtractFacts(Normalize(row.detected), sel.add + sel.ignore);
    SubtractFacts(Normalize(row.removed), sel.remove);
  }

  /** Nothing left pending is a piece of an added name. */
  ghost predicate Separate(row: Row, req: Selection) {
    var sel := Effective(row, req);
    forall k :: k in Names(row.detected) && k !in sel.add && k !in sel.ignore ==> k !in Pieces(sel.add)
  }

  /** A selection keeps the pending lists current exactly when it is separate. */
  lemma ApplyKeepsIff(row: Row, req: Selection, now: int)
    requires Current(row)
    ensures Current(Applied(row, req, now)) <==> Separate(row, req)
  {
    var row' := Applied(row, req, now);
    SelectionFacts(row, req);
    AppliedPieces(row, req, now);
    AppliedSettings(row, req, now);
    NamesOfClean(row.detected);
    NamesOfClean(row.removed);
    NamesOfClean(row'.ignored);
    if !Separate(row, req) {
      var k :| k in Names(row.detected) && k !in Effective(row, req).add && k !in Effective(row, req).ignore
        && k in Pieces(Effective(row, req).add);
      assert k in row'.detected && k in Names(Local(row'));
    }
  }

  lemma CommaFreeSeparate(row: Row, req: Selection)
    requires CommaFree(row.detected)
    ensures Separate(row, req)
  {
    var sel := Effective(row, req);
    SelectionFacts(row, req);
    forall k | k in sel.add
      ensures ',' !in k
    {
      PieceOf(row.detected, k);
    }
    PiecesOfClean(sel.add);
  }

  /** Every pending addition is added, ignored or left pending, the last exclusively; an
      added model is present and no longer ignored, whatever else was asked for it. */
  lemma ApplyAccounts(row: Row, req: Selection, now: int)
    requires Inv(row)
    ensures var sel, row' := Effective(row, req), Applied(row, req, now);
      && (forall k :: k in row.detected <==> k in sel.add || k in sel.ignore || k in row'.detected)
      && (forall k :: k in row'.detected ==> k !in sel.add && k !in sel.ignore)
      && (forall k :: k in row.removed <==> k in sel.remove || k in row'.removed)
      && (forall k :: k in row'.removed ==> k !in sel.remove)
      && (forall k :: k in sel.add ==> k in Names(Local(row')) && k !in row'.ignored)
      && (forall k :: k in sel.ignore && k !in sel.add ==> k in row'.ignored && k !in Names(Local(row')))
      && (forall k :: k in sel.remove ==> k !in Names(Local(row')))
  {
    AppliedLocal(row, req, now);
    AppliedSettings(row, req, now);
    NamesOfClean(row.detected);
    NamesOfClean(row.removed);
  }

  // ---------- runs ----------

  /** A completed check or selection; attempts that fail to store change nothing that matters here. */
  datatype Event =
    | CheckEvent(upstream: seq<string>, now: int, allowAuto: bool)
    | ApplyEvent(req: Selection, now: int)

  function After(row: Row, events: seq<Event>, c: Config): Row {
    if events == [] then row
    else
      var before := After(row, Most(events), c);
      match Last(events)
      case CheckEvent(upstream, now, allowAuto) => Checked(before, upstream, c, now, allowAuto)
      case ApplyEvent(req, now) => Applied(before, req, now)
  }

  predicate CommaFreeEvents(events: seq<Event>) {
    forall i :: 0 <= i < |events| && events[i].CheckEvent? ==> forall k :: k in Names(events[i].upstream) ==> ',' !in k
  }

  /** Every selection of the run is separate when it is applied. */
  ghost predicate AllSeparate(row: Row, events: seq<Event>, c: Config) {
    events == []
    || (&& AllSeparate(row, Most(events), c)
        && (Last(events).ApplyEvent? ==> Separate(After(row, Most(events), c), Last(events).req)))
  }

  ghost predicate AlwaysCurrent(row: Row, events: seq<Event>, c: Config) {
    Current(After(row, events, c)) && (events != [] ==> AlwaysCurrent(row, Most(events), c))
  }

  /** For any names: the pending lists are current throughout a run exactly when every
      selection is separate. */
  lemma {:induction false} AlwaysCurrentIff(row: Row, events: seq<Event>, c: Config)
    requires Current(row)
    ensures AllSeparate(row, events, c) <==> AlwaysCurrent(row, events, c)
  {
    if events != [] {
      AlwaysCurrentIff(row, Most(events), c);
      var before := After(row, Most(events), c);
      match Last(events)
      case CheckEvent(upstream, now, allowAuto) => CheckKeeps(before, upstream, c, now, allowAuto);
      case ApplyEvent(req, now) =>
        if AlwaysCurrent(row, Most(events), c) {
          ApplyKeepsIff(before, req, now);
        }
    }
  }

  lemma {:induction false} RunsCommaFree(row: Row, events: seq<Event>, c: Config)
    requires CommaFree(row.detected) && CommaFreeEvents(events)
    ensures CommaFree(After(row, events, c).detected) && AllSeparate(row, events, c)
  {
    if events != [] {
      RunsCommaFree(row, Most(events), c);
      var before := After(row, Most(events), c);
      match Last(events)
      case CheckEvent(upstream, now, allowAuto) =>
        assert events[|events| - 1].CheckEvent?;
        PendingFacts(Local(before), upstream, before.ignored, c);
      case ApplyEvent(req, now) =>
        CommaFreeSeparate(before, req);
        AppliedSettings(before, req, now);
        forall k | k in Names(before.detected)
          ensures ',' !in k
        {
          PieceOf(before.detected, k);
        }
    }
  }

  /** The invariant holds after every run over comma-free names that starts with it. */
  lemma InvAlways(row: Row, events: seq<Event>, c: Config)
    requires Inv(row) && CommaFreeEvents(events)
    ensures Inv(After(row, events, c))
  {
    RunsCommaFree(row, events, c);
    AlwaysCurrentIff(row, events, c);
  }

  /** And with nothing pending every channel starts with it. */
  lemma InvFromNothing(row: Row, events: seq<Event>, c: Config)
    requires row.detected == [] && row.removed == [] && CommaFreeEvents(events)
    ensures Inv(After(row, events, c))
  {
    InvAlways(row, events, c);
  }

  /** A selection that adds a name, but neither adds nor ignores a pending piece of it. */
  lemma PieceLeftPending(row: Row, req: Selection, longer: string, piece: string)
    requires longer in Names(req.add) && longer in Names(row.detected) && piece in Names(row.detected)
    requires piece !in Names(req.add) && piece !in Names(req.ignore)
    requires piece in Names(Split(longer, ','))
    ensures !Separate(row, req)
  {
    SelectionFacts(row, req);
    assert piece in Pieces(Effective(row, req).add);
  }

  lemma TwoNames(a: string, b: string)
    requires TrimSpace(a) == a != "" && TrimSpace(b) == b != "" && a != b
    ensures Clean([a, b]) && Names([a, b]) == {a, b}
  {
    forall k
      ensures k in [a, b] <==> k == a || k == b
    {
      assert [a, b][0] == a && [a, b][1] == b;
    }
  }

  lemma PendingOnly(detected: seq<string>)
    requires Clean(detected)
    ensures Current(Row("", [], detected, [], 0))
  {
    var row := Row("", [], detected, [], 0);
    assert Local(row) == [] && Names(Local(row)) == {} && Names(row.ignored) == {};
  }

  /** Two pending names, one a piece of the other, like "a,b" and "a": adding the longer
      makes the shorter present while it stays pending. */
  lemma PieceMadePresent(longer: string, piece: string, now: int)
    requires TrimSpace(longer) == longer != "" && ',' in longer && piece in Names(Split(longer, ','))
    ensures var row := Row("", [], [longer, piece], [], 0);
      Current(row) && !Current(Applied(row, Selection([longer], [], []), now))
  {
    var row, req := Row("", [], [longer, piece], [], 0), Selection([longer], [], []);
    PieceIsWhole(longer, piece);
    TwoNames(longer, piece);
    PendingOnly(row.detected);
    NamesOfClean([longer]);
    assert longer in [longer] && longer in {longer, piece} && piece in {longer, piece};
    PieceLeftPending(row, req, longer, piece);
    ApplyKeepsIff(row, req, now);
  }

  lemma PieceIsWhole(name: string, piece: string)
    requires piece in Names(Split(name, ','))
    ensures Whole(piece)
  {
    var part :| part in Split(name, ',') && TrimSpace(part) == piece;
    TrimIdempotent(part, IsSpace);
  }

  lemma CommaExample(now: int)
    ensures var row := Row("", [], ["a,b", "a"], [], 0);
      Current(row) && !Current(Applied(row, Selection(["a,b"], [], []), now))
  {
    assert "a,b" == "a" + [','] + "b";
    SplitPrefix("a", "b", ',');
    assert Split("a,b", ',')[0] == "a" && TrimSpace("a") == "a";
    PieceMadePresent("a,b", "a", now);
  }

  // ---------- convergence ----------

  /** Apply everything that is pending. */
  function ApplyAll(row: Row, now: int): Row {
    Applied(row, Selection(row.detected, [], row.removed), now)
  }

  /** Every uncovered upstream name that is ignored is ignored by a rule that is not
      itself one of the models about to be added. */
  ghost predicate RulesSurvive(row: Row, upstream: seq<string>, c: Config) {
    forall u :: u in Names(upstream) && u !in Covered(Local(row), c) && Ignored(Names(row.ignored), u, c.matches) ==>
      Ignored(Names(row.ignored) - Names(PendingAdd(Local(row), upstream, row.ignored, c)), u, c.matches)
  }

  lemma AllApplied(row: Row, upstream: seq<string>, c: Config, t1: int, t2: int)
    requires forall k :: k in Names(upstream) ==> ',' !in k
    ensures var seen := Checked(row, upstream, c, t1, false);
      var done := ApplyAll(seen, t2);
      && (forall k :: k in Names(Local(done)) <==> k in seen.detected || (k in Names(Local(row)) && k !in seen.removed))
      && Names(done.ignored) == Names(row.ignored) - Names(seen.detected)
      && Clean(seen.detected) && Clean(seen.removed)
      && done.detected == [] && done.removed == []
  {
    var seen := Checked(row, upstream, c, t1, false);
    var req := Selection(seen.detected, [], seen.removed);
    CheckKeeps(row, upstream, c, t1, false);
    PendingFacts(Local(row), upstream, row.ignored, c);
    NamesOfClean(seen.detected);
    NamesOfClean(seen.removed);
    AppliedLocal(seen, req, t2);
    AppliedSettings(seen, req, t2);
    var done := ApplyAll(seen, t2);
    NamesOfClean(done.ignored);
    HasMember(done.detected);
    HasMember(done.removed);
  }

  /** After a check and applying all it found, checking against the same upstream list
      finds no removal, and finds no addition exactly when the ignore rules survive. */
  lemma ConvergesIff(row: Row, upstream: seq<string>, c: Config, t1: int, t2: int)
    requires forall k :: k in Names(upstream) ==> ',' !in k
    ensures var done := ApplyAll(Checked(row, upstream, c, t1, false), t2);
      && PendingRemove(Local(done), upstream, c) == []
      && (PendingAdd(Local(done), upstream, done.ignored, c) == [] <==> RulesSurvive(row, upstream, c))
  {
    var seen := Checked(row, upstream, c, t1, false);
    var done := ApplyAll(seen, t2);
    AllApplied(row, upstream, c, t1, t2);
    PendingFacts(Local(row), upstream, row.ignored, c);
    PendingFacts(Local(done), upstream, done.ignored, c);
    NamesOfClean(seen.detected);
    var add := PendingAdd(Local(done), upstream, done.ignored, c);
    HasMember(PendingRemove(Local(done), upstream, c));
    HasMember(add);
    var rules := Names(row.ignored) - Names(seen.detected);
    forall u | u in Names(upstream)
      ensures u in add <==>
        u !in Covered(Local(row), c) && Ignored(Names(row.ignored), u, c.matches) && !Ignored(rules, u, c.matches)
    {
      if Ignored(rules, u, c.matches) {
        assert Ignored(Names(row.ignored), u, c.matches);
      }
    }
  }

  /** With no upstream name that reads like a "regex:" rule, reconciliation converges. */
  lemma Converges(row: Row, upstream: seq<string>, c: Config, t1: int, t2: int)
    requires forall k :: k in Names(upstream) ==> ',' !in k && !IsRegexRule(k)
    ensures var done := ApplyAll(Checked(row, upstream, c, t1, false), t2);
      && PendingRemove(Local(done), upstream, c) == []
      && PendingAdd(Local(done), upstream, done.ignored, c) == []
  {
    var add := PendingAdd(Local(row), upstream, row.ignored, c);
    PendingFacts(Local(row), upstream, row.ignored, c);
    NamesOfClean(add);
    forall u | u in Names(upstream) && Ignored(Names(row.ignored), u, c.matches)
      ensures Ignored(Names(row.ignored) - Names(add), u, c.matches)
    {
      var rule :| rule in Names(row.ignored) && RuleMatches(rule, u, c.matches);
      assert rule in Names(row.ignored) - Names(add);
    }
    ConvergesIff(row, upstream, c, t1, t2);
  }

  lemma OnlyRule(rule: string, u: string, matches: Matcher)
    ensures Ignored({rule}, u, matches) <==> RuleMatches(rule, u, matches)
    ensures !Ignored({}, u, matches)
  {
    assert rule in {rule};
  }

  lemma RuleIsPending(row: Row, upstream: seq<string>, c: Config, rule: string)
    requires rule in Names(upstream) && rule !in Covered(Local(row), c)
    requires Names(row.ignored) == {rule} && !RuleMatches(rule, rule, c.matches)
    ensures Names(row.ignored) - Names(PendingAdd(Local(row), upstream, row.ignored, c)) == {}
  {
    PendingFacts(Local(row), upstream, row.ignored, c);
    OnlyRule(rule, rule, c.matches);
    NamesOfClean(PendingAdd(Local(row), upstream, row.ignored, c));
  }

  /** How the rules can fail to survive: an upstream model named like a pattern rule is
      pending; adding it drops the rule, and what only that rule ignored becomes pending. */
  lemma AddedRuleIsLost(row: Row, upstream: seq<string>, c: Config, t1: int, t2: int, rule: string, u: string)
    requires forall k :: k in Names(upstream) ==> ',' !in k
    requires rule in Names(upstream) && u in Names(upstream)
    requires rule !in Covered(Local(row), c) && u !in Covered(Local(row), c)
    requires Names(row.ignored) == {rule} && RuleMatches(rule, u, c.matches) && !RuleMatches(rule, rule, c.matches)
    ensures var done := ApplyAll(Checked(row, upstream, c, t1, false), t2);
      PendingAdd(Local(done), upstream, done.ignored, c) != []
  {
    RuleIsPending(row, upstream, c, rule);
    OnlyRule(rule, u, c.matches);
    assert !RulesSurvive(row, upstream, c);
    ConvergesIff(row, upstream, c, t1, t2);
  }

  /** Automatic addition converges in one step, whatever the rules. */
  lemma AutoSyncConverges(row: Row, upstream: seq<string>, c: Config, now: int)
    requires forall k :: k in Names(upstream) ==> ',' !in k
    requires c.autoSync
    ensures var done := Checked(row, upstream, c, now, true);
      && PendingAdd(Local(done), upstream, done.ignored, c) == []
      && Names(PendingRemove(Local(done), upstream, c)) == Names(done.removed)
  {
    var done := Checked(row, upstream, c, now, true);
    PendingFacts(Local(row), upstream, row.ignored, c);
    PendingFacts(Local(done), upstream, done.ignored, c);
    CheckedLocal(row, upstream, c, now, true);
    HasMember(PendingAdd(Local(done), upstream, done.ignored, c));
    NamesOfClean(PendingRemove(Local(done), upstream, c));
    NamesOfClean(done.removed);
  }

  /** An upstream name with a comma is never present, however often it is added: it is
      pending exactly unless a redirection leads to it or a rule ignores it. */
  lemma CommaAlwaysPending(row: Row, upstream: seq<string>, c: Config, k: string)
    requires k in Names(upstream) && ',' in k
    ensures k in PendingAdd(Local(row), upstream, row.ignored, c)
       <==> k !in c.redirect.Values && !Ignored(Names(row.ignored), k, c.matches)
  {
    PendingFacts(Local(row), upstream, row.ignored, c);
    LocalCommaFree(row);
  }
}
