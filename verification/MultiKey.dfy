/** Multi-key channels: the keys are one newline-joined text, and status, disable time
    and disable reason are three maps indexed by key position.  The abstract state is a
    sequence of key records; each management action is checked against the edit it makes
    to that sequence. */
module MultiKey {
  import opened Basics
  import opened Text

  const ENABLED := 1
  const MANUALLY_DISABLED := 2
  const AUTO_DISABLED := 3

  /** A JSON parser for arrays of raw messages; its answers are not our business. */
  type ArrayParser = string -> Option<seq<string>>

  datatype KeyRecord = KeyRecord(key: string, status: int, time: Option<int>, reason: Option<string>)

  // ---------- the key text ----------

  predicate Bracketed(text: string) {
    var t := TrimSpace(text);
    t != "" && t[0] == '['
  }

  /** Channel.GetKeys */
  function GetKeys(text: string, json: ArrayParser): seq<string> {
    if text != "" && Bracketed(text) && json(TrimSpace(text)).Some? then json(TrimSpace(text)).value
    else Fields(text, '\n')
  }

  /** A text that is a JSON array shows the array's items; one that does not begin like an
      array shows its lines. */
  lemma KeysShown(text: string, json: ArrayParser, items: seq<string>)
    requires text != ""
    ensures TrimSpace(text) != "" && TrimSpace(text)[0] == '[' && json(TrimSpace(text)) == Some(items) ==>
      GetKeys(text, json) == items
    ensures (items != [] && Storable(items, '\n') && text == Join(items, '\n')
             && (TrimSpace(text) == "" || TrimSpace(text)[0] != '[')) ==>
      GetKeys(text, json) == items
  {
    FieldsJoin(items, '\n');
  }

  /** The key list whose length Channel.Update stores as MultiKeySize. */
  function CountedKeys(text: string, json: ArrayParser): seq<string> {
    if text != "" && Bracketed(text) && json(TrimSpace(text)).Some? && json(TrimSpace(text)).value != []
    then json(TrimSpace(text)).value
    else Fields(text, '\n')
  }

  /** The stored count is the number of keys unless the text is an empty array. */
  lemma CountedIff(text: string, json: ArrayParser)
    ensures CountedKeys(text, json) == GetKeys(text, json) <==>
      !(Bracketed(text) && json(TrimSpace(text)) == Some([]))
  {
  }

  /** The existing keys as append mode parses them: no fallback when the array is malformed. */
  function ExistingKeys(text: string, json: ArrayParser): seq<string> {
    if Bracketed(text) then (if json(TrimSpace(text)).Some? then json(TrimSpace(text)).value else [])
    else Fields(text, '\n')
  }

  /** Key lists that survive being joined, stored and read back. */
  predicate Restorable(keys: seq<string>, json: ArrayParser) {
    var text := Join(keys, '\n');
    text != "" && GetKeys(text, json) == keys && CountedKeys(text, json) == keys
  }

  /** The text reads as a JSON array. */
  predicate IsArray(text: string, json: ArrayParser) {
    Bracketed(text) && json(TrimSpace(text)).Some?
  }

  /** That takes at least one key, and either no key containing a line break and a
      non-empty first and last key, or a joined text that happens to be a JSON array of
      just these keys. */
  lemma RestorableIff(keys: seq<string>, json: ArrayParser)
    ensures var text := Join(keys, '\n');
      Restorable(keys, json) <==>
        keys != [] && if IsArray(text, json) then json(TrimSpace(text)).value == keys else Storable(keys, '\n')
  {
    FieldsJoin(keys, '\n');
    if keys != [] && Storable(keys, '\n') {
      JoinEnds(keys, '\n');
    }
  }

  /** An ordinary key: visible, on one line, not opening like a JSON array. */
  predicate Plain(key: string) {
    '\n' !in key && TrimSpace(key) != "" && TrimSpace(key)[0] != '['
  }

  predicate AllPlain(keys: seq<string>) {
    forall i :: 0 <= i < |keys| ==> Plain(keys[i])
  }

  /** Every non-empty list of ordinary keys survives. */
  lemma PlainRestorable(keys: seq<string>, json: ArrayParser)
    requires keys != [] && AllPlain(keys)
    ensures Restorable(keys, json)
  {
    VisibleOfJoin(keys, '\n');
    assert Plain(keys[0]) && Plain(keys[|keys| - 1]);
    RestorableIff(keys, json);
  }

  /** Append mode loses the existing keys exactly when their text opens like a JSON
      array but is not one. */
  lemma ExistingKeysIff(text: string, json: ArrayParser)
    requires text != ""
    ensures ExistingKeys(text, json) == GetKeys(text, json) <==> !(Bracketed(text) && json(TrimSpace(text)).None?)
  {
  }

  // ---------- index maps and records ----------

  datatype Meta = Meta(status: map<int, int>, time: map<int, int>, reason: map<int, string>)

  function Lookup<T>(m: map<int, T>, i: int): Option<T> {
    if i in m then Some(m[i]) else None
  }

  function StatusAt(meta: Meta, i: int): int {
    if i in meta.status then meta.status[i] else ENABLED
  }

  function RecordAt(key: string, meta: Meta, i: int): KeyRecord {
    KeyRecord(key, StatusAt(meta, i), Lookup(meta.time, i), Lookup(meta.reason, i))
  }

  function Records(keys: seq<string>, meta: Meta): (rs: seq<KeyRecord>)
    ensures |rs| == |keys| && forall i :: 0 <= i < |rs| ==> rs[i] == RecordAt(keys[i], meta, i)
  {
    seq(|keys|, i requires 0 <= i < |keys| => RecordAt(keys[i], meta, i))
  }

  ghost predicate Within(meta: Meta, n: nat) {
    && (forall i :: i in meta.status ==> 0 <= i < n)
    && (forall i :: i in meta.time ==> 0 <= i < n)
    && (forall i :: i in meta.reason ==> 0 <= i < n)
  }

  /** All that Update guarantees: it trims the status map alone. */
  ghost predicate StatusWithin(meta: Meta, n: nat) {
    forall i :: i in meta.status ==> 0 <= i < n
  }

  const NO_META := Meta(map[], map[], map[])

  /** Adding a record at the next index leaves the earlier ones alone. */
  lemma PushRecord(keys: seq<string>, meta: Meta, key: string, meta': Meta)
    requires forall k, i :: i != |keys| ==> RecordAt(k, meta', i) == RecordAt(k, meta, i)
    ensures Records(keys + [key], meta') == Records(keys, meta) + [RecordAt(key, meta', |keys|)]
  {
  }

  /** Copies what is known of key `i` to index `j` of the maps being built; an explicit
      "enabled" is not copied, being the default. */
  method Reindex(from: Meta, i: int, to: Meta, j: nat) returns (out: Meta)
    requires Within(to, j)
    ensures Within(out, j + 1)
    ensures forall key :: RecordAt(key, out, j) == RecordAt(key, from, i)
    ensures forall key, k :: k != j ==> RecordAt(key, out, k) == RecordAt(key, to, k)
  {
    out := to;
    if i in from.status && from.status[i] != ENABLED {
      out := out.(status := out.status[j := from.status[i]]);
    }
    if i in from.time {
      out := out.(time := out.time[j := from.time[i]]);
    }
    if i in from.reason {
      out := out.(reason := out.reason[j := from.reason[i]]);
    }
  }

  // ---------- the edits the actions stand for ----------

  function Reenabled(r: KeyRecord): KeyRecord {
    KeyRecord(r.key, ENABLED, None, None)
  }

  function Forgotten(meta: Meta, i: int): Meta {
    Meta(meta.status - {i}, meta.time - {i}, meta.reason - {i})
  }

  lemma ForgetRecord(keys: seq<string>, meta: Meta, i: nat)
    requires i < |keys| && StatusWithin(meta, |keys|)
    ensures Records(keys, Forgotten(meta, i)) == Records(keys, meta)[i := Reenabled(RecordAt(keys[i], meta, i))]
    ensures StatusWithin(Forgotten(meta, i), |keys|)
    ensures Trimmed(Forgotten(meta, i), |keys|) == Forgotten(meta, i)
  {
    forall k | 0 <= k < |keys| && k != i
      ensures RecordAt(keys[k], Forgotten(meta, i), k) == RecordAt(keys[k], meta, k)
    {
    }
  }

  function Disabled(meta: Meta, i: int): Meta {
    meta.(status := meta.status[i := MANUALLY_DISABLED])
  }

  lemma DisableRecord(keys: seq<string>, meta: Meta, i: nat)
    requires i < |keys| && StatusWithin(meta, |keys|)
    ensures Records(keys, Disabled(meta, i))
         == Records(keys, meta)[i := RecordAt(keys[i], meta, i).(status := MANUALLY_DISABLED)]
    ensures StatusWithin(Disabled(meta, i), |keys|)
    ensures Trimmed(Disabled(meta, i), |keys|) == Disabled(meta, i)
  {
    forall k | 0 <= k < |keys| && k != i
      ensures RecordAt(keys[k], Disabled(meta, i), k) == RecordAt(keys[k], meta, k)
    {
    }
  }

  function ReenableAll(rs: seq<KeyRecord>): (out: seq<KeyRecord>)
    ensures |out| == |rs| && forall i :: 0 <= i < |rs| ==> out[i] == Reenabled(rs[i])
  {
    seq(|rs|, i requires 0 <= i < |rs| => Reenabled(rs[i]))
  }

  function DisableEnabled(r: KeyRecord): KeyRecord {
    if r.status == ENABLED then r.(status := MANUALLY_DISABLED) else r
  }

  function DisableEvery(rs: seq<KeyRecord>): (out: seq<KeyRecord>)
    ensures |out| == |rs| && forall i :: 0 <= i < |rs| ==> out[i] == DisableEnabled(rs[i])
  {
    seq(|rs|, i requires 0 <= i < |rs| => DisableEnabled(rs[i]))
  }

  function CountFirst(rs: seq<KeyRecord>, n: nat, status: int): nat
    requires n <= |rs|
  {
    if n == 0 then 0 else CountFirst(rs, n - 1, status) + if rs[n - 1].status == status then 1 else 0
  }

  /** How many keys have the given status. */
  function CountStatus(rs: seq<KeyRecord>, status: int): nat {
    CountFirst(rs, |rs|, status)
  }

  lemma {:induction false} AllOtherwise(rs: seq<KeyRecord>, n: nat, status: int)
    requires n <= |rs|
    ensures CountFirst(rs, n, status) == 0 <==> forall i :: 0 <= i < n ==> rs[i].status != status
  {
    if n > 0 {
      AllOtherwise(rs, n - 1, status);
    }
  }

  /** Counting is counting positions. */
  lemma {:induction false} CountIsCardinality(rs: seq<KeyRecord>, n: nat, status: int)
    requires n <= |rs|
    ensures CountFirst(rs, n, status) == |set i | 0 <= i < n && rs[i].status == status|
  {
    var now := set i | 0 <= i < n && rs[i].status == status;
    if n == 0 {
      assert now == {};
    } else {
      CountIsCardinality(rs, n - 1, status);
      var before := set i | 0 <= i < n - 1 && rs[i].status == status;
      if rs[n - 1].status == status {
        assert now == before + {n - 1};
      } else {
        assert now == before;
      }
    }
  }

  /** The loop of the disable-all action. */
  method DisableEnabledKeys(keys: seq<string>, size: nat, meta: Meta) returns (out: Meta, disabledCount: nat)
    requires size == |keys| && StatusWithin(meta, size)
    ensures StatusWithin(out, size) && out.time == meta.time && out.reason == meta.reason
    ensures Records(keys, out) == DisableEvery(Records(keys, meta))
    ensures disabledCount == CountStatus(Records(keys, meta), ENABLED)
    ensures disabledCount == 0 ==> Records(keys, meta) == Records(keys, out)
  {
    ghost var rs := Records(keys, meta);
    out, disabledCount := meta, 0;
    for i := 0 to size
      invariant StatusWithin(out, size) && out.time == meta.time && out.reason == meta.reason
      invariant disabledCount == CountFirst(rs, i, ENABLED)
      invariant forall k :: 0 <= k < size ==>
        RecordAt(keys[k], out, k) == if k < i then DisableEnabled(rs[k]) else rs[k]
    {
      var status := ENABLED;
      if i in out.status {
        status := out.status[i];
      }
      assert RecordAt(keys[i], out, i) == rs[i];
      if status == ENABLED {
        out := out.(status := out.status[i := MANUALLY_DISABLED]);
        disabledCount := disabledCount + 1;
      }
    }
    AllOtherwise(rs, size, ENABLED);
  }

  function RemoveAt<T>(s: seq<T>, i: int): (out: seq<T>)
    requires 0 <= i < |s|
    ensures |out| == |s| - 1 && forall k :: 0 <= k < |out| ==> out[k] == s[if k < i then k else k + 1]
  {
    s[..i] + s[i + 1..]
  }

  /** The loop of the delete action: everything but one key moves over, re-indexed. */
  method CopyAllBut(keys: seq<string>, meta: Meta, keyIndex: nat) returns (remainingKeys: seq<string>, newMeta: Meta)
    requires keyIndex < |keys|
    ensures Within(newMeta, |remainingKeys|)
    ensures Records(remainingKeys, newMeta) == RemoveAt(Records(keys, meta), keyIndex)
  {
    remainingKeys, newMeta := [], NO_META;
    var newIndex := 0;
    for i := 0 to |keys|
      invariant newIndex == |remainingKeys| == (if i > keyIndex then i - 1 else i)
      invariant Within(newMeta, newIndex)
      invariant forall k :: 0 <= k < newIndex ==>
        var from := if k < keyIndex then k else k + 1;
        RecordAt(remainingKeys[k], newMeta, k) == RecordAt(keys[from], meta, from)
    {
      if i != keyIndex {
        remainingKeys := remainingKeys + [keys[i]];
        newMeta := Reindex(meta, i, newMeta, newIndex);
        newIndex := newIndex + 1;
      }
    }
  }

  /** What is kept of a surviving record: an enabled key forgets a stale time and reason. */
  function Kept(r: KeyRecord): KeyRecord {
    if r.status == ENABLED then Reenabled(r) else r
  }

  function DropFirst(rs: seq<KeyRecord>, n: nat): seq<KeyRecord>
    requires n <= |rs|
  {
    if n == 0 then []
    else DropFirst(rs, n - 1) + if rs[n - 1].status == AUTO_DISABLED then [] else [Kept(rs[n - 1])]
  }

  function DropAutoDisabled(rs: seq<KeyRecord>): seq<KeyRecord> {
    DropFirst(rs, |rs|)
  }

  lemma {:induction false} DropFirstLength(rs: seq<KeyRecord>, n: nat)
    requires n <= |rs|
    ensures |DropFirst(rs, n)| == n - CountFirst(rs, n, AUTO_DISABLED)
  {
    if n > 0 {
      DropFirstLength(rs, n - 1);
    }
  }

  /** Survivors keep their order: each moves up by the number of auto-disabled keys before
      it and keeps its record, but an enabled one forgets a stale time and reason. */
  lemma {:induction false} SurvivorPosition(rs: seq<KeyRecord>, n: nat, i: nat)
    requires i < n <= |rs| && rs[i].status != 3
    ensures var to, list := i - CountFirst(rs, i, 3), DropFirst(rs, n);
      0 <= to < |list| == n - CountFirst(rs, n, 3)
      && list[to] == if rs[i].status == 1 then KeyRecord(rs[i].key, 1, None, None) else rs[i]
  {
    DropFirstLength(rs, n - 1);
    DropFirstLength(rs, n);
    if i < n - 1 {
      SurvivorPosition(rs, n - 1, i);
    }
  }

  /** All survivors keep their metadata exactly when no enabled key carries a stale one. */
  lemma MetadataKeptIff(rs: seq<KeyRecord>)
    ensures (forall i :: 0 <= i < |rs| && rs[i].status != AUTO_DISABLED ==> Kept(rs[i]) == rs[i])
       <==> (forall i :: 0 <= i < |rs| && rs[i].status == ENABLED ==> rs[i].time == None && rs[i].reason == None)
  {
    forall i | 0 <= i < |rs| && rs[i].status != AUTO_DISABLED
      ensures Kept(rs[i]) == rs[i] <==> (rs[i].status == ENABLED ==> rs[i].time == None && rs[i].reason == None)
    {
    }
  }

  /** The loop of the delete-disabled action. */
  method CopySurvivors(keys: seq<string>, meta: Meta)
    returns (remainingKeys: seq<string>, newMeta: Meta, deletedCount: nat)
    ensures Within(newMeta, |remainingKeys|)
    ensures Records(remainingKeys, newMeta) == DropAutoDisabled(Records(keys, meta))
    ensures deletedCount == CountStatus(Records(keys, meta), AUTO_DISABLED)
  {
    ghost var rs := Records(keys, meta);
    remainingKeys, newMeta, deletedCount := [], NO_META, 0;
    var newIndex := 0;
    for i := 0 to |keys|
      invariant newIndex == |remainingKeys| && Within(newMeta, newIndex)
      invariant Records(remainingKeys, newMeta) == DropFirst(rs, i)
      invariant deletedCount == CountFirst(rs, i, AUTO_DISABLED)
    {
      var status := ENABLED;
      if i in meta.status {
        status := meta.status[i];
      }
      if status == AUTO_DISABLED {
        deletedCount := deletedCount + 1;
      } else {
        ghost var kept, before := remainingKeys, newMeta;
        remainingKeys := remainingKeys + [keys[i]];
        if status != ENABLED {
          newMeta := Reindex(meta, i, newMeta, newIndex);
        }
        newIndex := newIndex + 1;
        PushRecord(kept, before, keys[i], newMeta);
      }
    }
  }

  function KeysOf(rs: seq<KeyRecord>): (keys: seq<string>)
    ensures |keys| == |rs| && forall i :: 0 <= i < |rs| ==> keys[i] == rs[i].key
  {
    seq(|rs|, i requires 0 <= i < |rs| => rs[i].key)
  }

  lemma KeysOfRecords(keys: seq<string>, meta: Meta)
    ensures KeysOf(Records(keys, meta)) == keys
  {
  }

  // ---------- what a rewritten key list shows ----------

  /** The row's key text after a new key list was written; an empty text is not written. */
  function Rewritten(text: string, keys: seq<string>): string {
    if Join(keys, '\n') != "" then Join(keys, '\n') else text
  }

  /** Whatever keys read back, the i-th of them shows the i-th of the intended records. */
  function Paired(shown: seq<string>, size: int, rs: seq<KeyRecord>): (out: seq<KeyRecord>)
    ensures |out| == |shown|
  {
    seq(|shown|, i requires 0 <= i < |shown| =>
      KeyRecord(shown[i],
        if i < |rs| && i < size then rs[i].status else ENABLED,
        if i < |rs| then rs[i].time else None,
        if i < |rs| then rs[i].reason else None))
  }

  lemma PairedRecords(shown: seq<string>, size: int, keys: seq<string>, meta: Meta)
    requires Within(meta, |keys|)
    ensures Records(shown, Trimmed(meta, size)) == Paired(shown, size, Records(keys, meta))
  {
    forall i | 0 <= i < |shown|
      ensures RecordAt(shown[i], Trimmed(meta, size), i) == Paired(shown, size, Records(keys, meta))[i]
    {
      if i < |keys| {
        assert Records(keys, meta)[i] == RecordAt(keys[i], meta, i);
      }
    }
  }

  lemma PlainAfterDelete(rs: seq<KeyRecord>, i: nat, json: ArrayParser)
    requires AllPlain(KeysOf(rs)) && i < |rs| && |rs| > 1
    ensures AllPlain(KeysOf(RemoveAt(rs, i))) && Restorable(KeysOf(RemoveAt(rs, i)), json)
  {
    var rest := RemoveAt(rs, i);
    forall k | 0 <= k < |rest|
      ensures Plain(KeysOf(rest)[k])
    {
      var from := if k < i then k else k + 1;
      assert rest[k] == rs[from] && Plain(KeysOf(rs)[from]);
    }
    PlainRestorable(KeysOf(rest), json);
  }

  lemma {:induction false} PlainSurvivors(rs: seq<KeyRecord>, n: nat)
    requires AllPlain(KeysOf(rs)) && n <= |rs|
    ensures AllPlain(KeysOf(DropFirst(rs, n)))
  {
    if n > 0 {
      PlainSurvivors(rs, n - 1);
      assert Plain(KeysOf(rs)[n - 1]);
    }
  }

  lemma SurvivorsRestorable(rs: seq<KeyRecord>, json: ArrayParser)
    requires AllPlain(KeysOf(rs)) && DropAutoDisabled(rs) != []
    ensures Restorable(KeysOf(DropAutoDisabled(rs)), json)
  {
    PlainSurvivors(rs, |rs|);
    PlainRestorable(KeysOf(DropAutoDisabled(rs)), json);
  }

  /** Deleting from ordinary keys always leaves a list that can be stored. */
  lemma DeletionSafe(rs: seq<KeyRecord>, json: ArrayParser)
    requires AllPlain(KeysOf(rs))
    ensures forall i :: 0 <= i < |rs| && |rs| > 1 ==> Restorable(KeysOf(RemoveAt(rs, i)), json)
    ensures DropAutoDisabled(rs) != [] ==> Restorable(KeysOf(DropAutoDisabled(rs)), json)
  {
    forall i | 0 <= i < |rs| && |rs| > 1
      ensures Restorable(KeysOf(RemoveAt(rs, i)), json)
    {
      PlainAfterDelete(rs, i, json);
    }
    if DropAutoDisabled(rs) != [] {
      SurvivorsRestorable(rs, json);
    }
  }

  lemma ThreeKeys(json: ArrayParser)
    ensures GetKeys(Join(["a", "", "b"], '\n'), json) == ["a", "", "b"]
  {
    TrimFixpoint("a", IsSpace);
    VisibleOfJoin(["a", "", "b"], '\n');
    FieldsJoin(["a", "", "b"], '\n');
  }

  lemma LeadingBreak(json: ArrayParser)
    ensures Join(["", "b"], '\n') == ['\n'] + "b"
    ensures GetKeys(['\n'] + "b", json) == CountedKeys(['\n'] + "b", json) == ["b"]
  {
    var text := ['\n'] + "b";
    assert text[1..] == "b";
    assert TrimLeft(text, c => c == '\n') == "b" && TrimLeft(text, IsSpace) == "b";
    VisibleOfTrimLeft(text);
    SplitWhole("b", '\n');
  }

  /** A deletion that goes wrong: of the keys "a", "" and "b" the first is deleted, the
      remaining text loses the empty key, and "b" takes over the empty key's record. */
  lemma DeletionMisplaces(rs: seq<KeyRecord>, json: ArrayParser)
    requires KeysOf(rs) == ["a", "", "b"]
    ensures GetKeys(Join(KeysOf(rs), '\n'), json) == KeysOf(rs)
    ensures var text := Join(KeysOf(RemoveAt(rs, 0)), '\n');
      && !Restorable(KeysOf(RemoveAt(rs, 0)), json)
      && GetKeys(text, json) == CountedKeys(text, json) == ["b"]
      && Paired(["b"], 1, RemoveAt(rs, 0)) == [KeyRecord("b", rs[1].status, rs[1].time, rs[1].reason)]
  {
    ThreeKeys(json);
    LeadingBreak(json);
    assert KeysOf(RemoveAt(rs, 0)) == ["", "b"];
  }

  // ---------- counts ----------

  lemma {:induction false} DisabledEntries(keys: seq<string>, meta: Meta, n: nat)
    requires n <= |keys|
    ensures |set i | 0 <= i < n && i in meta.status && meta.status[i] != ENABLED|
         == n - CountFirst(Records(keys, meta), n, ENABLED)
  {
    var below := set i | 0 <= i < n && i in meta.status && meta.status[i] != ENABLED;
    if n > 0 {
      DisabledEntries(keys, meta, n - 1);
      var fewer := set i | 0 <= i < n - 1 && i in meta.status && meta.status[i] != ENABLED;
      assert below == fewer + if StatusAt(meta, n - 1) != ENABLED then {n - 1} else {};
    } else {
      assert below == {};
    }
  }

  function ExplicitlyEnabled(meta: Meta): set<int> {
    set i | i in meta.status && meta.status[i] == ENABLED
  }

  lemma StatusMapSize(keys: seq<string>, meta: Meta)
    requires StatusWithin(meta, |keys|)
    ensures |meta.status| == |keys| - CountStatus(Records(keys, meta), ENABLED) + |ExplicitlyEnabled(meta)|
  {
    DisabledEntries(keys, meta, |keys|);
    var others := set i | 0 <= i < |keys| && i in meta.status && meta.status[i] != ENABLED;
    assert meta.status.Keys == ExplicitlyEnabled(meta) + others;
    assert |meta.status| == |meta.status.Keys| == |ExplicitlyEnabled(meta)| + |others|;
  }

  /** The count reported by enable-all is the number of keys it changes exactly when the
      status map holds no explicit "enabled" entry. */
  lemma EnableAllCountIff(keys: seq<string>, meta: Meta)
    requires StatusWithin(meta, |keys|)
    ensures |meta.status| == |keys| - CountStatus(Records(keys, meta), ENABLED)
       <==> (forall i :: i in meta.status ==> meta.status[i] != ENABLED)
  {
    StatusMapSize(keys, meta);
    var explicit := ExplicitlyEnabled(meta);
    if forall i :: i in meta.status ==> meta.status[i] != ENABLED {
      assert forall i :: i !in explicit;
      assert explicit == {};
    } else {
      var i :| i in meta.status && meta.status[i] == ENABLED;
      assert i in explicit;
    }
  }

  // ---------- appending keys ----------

  /** The pasted keys of an ordinary channel, one a line. */
  function PastedKeys(text: string): seq<string> {
    NonBlank(Split(text, '\n'))
  }

  /** The appended keys that are neither blank nor present already. */
  method Deduplicate(existingKeys: seq<string>, newKeys: seq<string>) returns (deduped: seq<string>)
    ensures deduped == Fresh(Names(existingKeys), newKeys)
  {
    var seen: set<string> := {};
    for i := 0 to |existingKeys|
      invariant seen == Names(existingKeys[..i])
    {
      var normalized := TrimSpace(existingKeys[i]);
      assert forall k :: k in existingKeys[..i + 1] <==> k in existingKeys[..i] || k == existingKeys[i];
      if normalized != "" {
        seen := seen + {normalized};
      }
    }
    assert existingKeys[..|existingKeys|] == existingKeys;
    deduped := AppendFresh(seen, newKeys);
  }

  method AppendFresh(existing: set<string>, newKeys: seq<string>) returns (deduped: seq<string>)
    ensures deduped == Fresh(existing, newKeys)
  {
    var seen := existing;
    deduped := [];
    for i := 0 to |newKeys|
      invariant deduped + Fresh(seen, newKeys[i..]) == Fresh(existing, newKeys)
    {
      var normalized := TrimSpace(newKeys[i]);
      assert newKeys[i..][1..] == newKeys[i + 1..];
      if normalized != "" && normalized !in seen {
        seen := seen + {normalized};
        deduped := deduped + [normalized];
      }
    }
  }

  function FreshRecords(keys: seq<string>): seq<KeyRecord> {
    Records(keys, NO_META)
  }

  /** The key list append mode writes. */
  function Combined(text: string, pasted: string, json: ArrayParser): seq<string> {
    var existing := ExistingKeys(text, json);
    existing + Fresh(Names(existing), PastedKeys(pasted))
  }

  /** Every pasted line that shows anything is a key afterwards, trimmed; and whatever is
      added is such a line and was no key before. */
  lemma PastedArrive(keys: seq<string>, pasted: string, lines: seq<string>, k: string)
    requires lines == Split(pasted, '\n')
    ensures var added := Fresh(Names(keys), PastedKeys(pasted));
      && (k in Names(keys + added) <==>
            k in Names(keys) || (k != "" && exists i :: 0 <= i < |lines| && TrimSpace(lines[i]) == k))
      && (k in added ==> k !in Names(keys))
  {
    LinesArrive(keys, lines, k);
  }

  lemma LinesArrive(keys: seq<string>, lines: seq<string>, k: string)
    ensures var added := Fresh(Names(keys), NonBlank(lines));
      && (k in Names(keys + added) <==>
            k in Names(keys) || (k != "" && exists i :: 0 <= i < |lines| && TrimSpace(lines[i]) == k))
      && (k in added ==> k !in Names(keys))
  {
    FreshFacts(Names(keys), NonBlank(lines));
    NamesOfFresh(Names(keys), NonBlank(lines));
    NamesOfConcat(keys, Fresh(Names(keys), NonBlank(lines)));
    NonBlankNames(lines);
    NamesAre(lines, k);
  }

  lemma AppendStorable(text: string, pasted: string)
    ensures var existing := Fields(text, '\n');
      var all := existing + Fresh(Names(existing), PastedKeys(pasted));
      existing != [] ==> (Storable(all, '\n') <==> existing != [""])
  {
    var existing := Fields(text, '\n');
    FieldsStorable(text, '\n');
    AddedLines(Names(existing), pasted);
    if existing != [""] && existing != [] {
      StorableConcat(existing, Fresh(Names(existing), PastedKeys(pasted)));
    }
  }

  lemma AppendVisible(text: string, more: seq<string>)
    requires TrimSpace(text) != ""
    ensures var existing := Fields(text, '\n');
      existing != [""] && existing != [] && FirstVisible(Join(existing + more, '\n')) == FirstVisible(text)
  {
    var existing := Fields(text, '\n');
    VisibleOfFields(text);
    JoinStarts(existing, more);
    var start, whole := Join(existing, '\n'), Join(existing + more, '\n');
    VisibleAppend(start, whole[|start|..]);
    assert start + whole[|start|..] == whole;
  }

  /** Appending to a key text that is no array gives a list that can be stored whenever the
      text shows anything; for a blank text the list must read back by itself. */
  lemma AppendSafe(text: string, json: ArrayParser, pasted: string)
    requires text != "" && !Bracketed(text)
    ensures ExistingKeys(text, json) == GetKeys(text, json)
    ensures var all := Combined(text, pasted, json);
      Restorable(all, json) <==>
        TrimSpace(text) != ""
        || if IsArray(Join(all, '\n'), json) then json(TrimSpace(Join(all, '\n'))).value == all
           else Fields(text, '\n') != [""]
  {
    AppendStorable(text, pasted);
    RestorableIff(Combined(text, pasted, json), json);
    if TrimSpace(text) != "" {
      AppendVisible(text, Fresh(Names(Fields(text, '\n')), PastedKeys(pasted)));
    }
  }

  lemma {:induction false} JoinStarts(keys: seq<string>, more: seq<string>)
    requires keys != []
    ensures Join(keys, '\n') <= Join(keys + more, '\n')
  {
    if |keys| > 1 {
      JoinStarts(keys[1..], more);
      assert (keys + more)[1..] == keys[1..] + more;
    }
  }

  lemma AddedLines(seen: set<string>, pasted: string)
    ensures forall k :: k in Fresh(seen, PastedKeys(pasted)) ==> k != "" && '\n' !in k
  {
    var lines := Split(pasted, '\n');
    FreshFacts(seen, PastedKeys(pasted));
    NonBlankNames(lines);
    forall k | k in Fresh(seen, PastedKeys(pasted))
      ensures '\n' !in k
    {
      PieceOfLine(lines, k);
    }
  }

  lemma StorableConcat(keys: seq<string>, more: seq<string>)
    requires Storable(keys, '\n') && keys != []
    requires forall k :: k in more ==> k != "" && '\n' !in k
    ensures Storable(keys + more, '\n') && keys + more != []
  {
    var all := keys + more;
    forall i | 0 <= i < |all|
      ensures '\n' !in all[i]
    {
      if i >= |keys| {
        assert all[i] in more;
      }
    }
    if more != [] {
      assert Last(all) == Last(more) && Last(more) in more;
    }
  }

  /** A trimmed line has no line break, the lines having none. */
  lemma PieceOfLine(lines: seq<string>, k: string)
    requires forall i :: 0 <= i < |lines| ==> '\n' !in lines[i]
    requires k in Names(lines)
    ensures '\n' !in k
  {
    var l :| l in lines && TrimSpace(l) == k;
  }

  /** After a rewrite of the key list to `keys`, with `text` now in the row, the channel
      shows the intended records exactly when the list is one that can be stored. */
  lemma AfterRewrite(text: string, keys: seq<string>, newMeta: Meta, meta: Meta, json: ArrayParser)
    requires Within(newMeta, |keys|)
    requires if Join(keys, '\n') != "" then text == Join(keys, '\n') else GetKeys(text, json) != keys
    requires meta == Trimmed(newMeta, |CountedKeys(text, json)|)
    ensures (Records(GetKeys(text, json), meta) == Records(keys, newMeta)
             && CountedKeys(text, json) == GetKeys(text, json) && StatusWithin(meta, |GetKeys(text, json)|))
       <==> Restorable(keys, json)
    ensures Restorable(keys, json) ==> GetKeys(text, json) == keys && meta == newMeta
  {
    RecordsTellKeys(GetKeys(text, json), CountedKeys(text, json), keys, newMeta, meta);
  }

  lemma RecordsTellKeys(shown: seq<string>, counted: seq<string>, keys: seq<string>, newMeta: Meta, meta: Meta)
    requires Within(newMeta, |keys|) && meta == Trimmed(newMeta, |counted|)
    ensures (Records(shown, meta) == Records(keys, newMeta) && counted == shown && StatusWithin(meta, |shown|))
       <==> (shown == keys && counted == keys)
    ensures counted == keys ==> meta == newMeta
  {
    if Records(shown, meta) == Records(keys, newMeta) {
      KeysOfRecords(shown, meta);
      KeysOfRecords(keys, newMeta);
    }
    if counted == keys {
      assert meta == newMeta;
    }
  }

  lemma ForgetInside(meta: Meta, i: nat, n: nat)
    requires i < n
    ensures Outside(Forgotten(meta, i).time, n) == Outside(meta.time, n)
    ensures Outside(Forgotten(meta, i).reason, n) == Outside(meta.reason, n)
  {
  }

  lemma NothingOutside(meta: Meta, n: nat)
    requires Within(meta, n)
    ensures Outside(meta.time, n) == map[] && Outside(meta.reason, n) == map[]
  {
    assert forall i :: i !in Outside(meta.time, n) && i !in Outside(meta.reason, n);
  }

  /** All that a rewrite of the key list means for what the channel shows. */
  lemma RewriteOutcome(text: string, keys: seq<string>, newMeta: Meta, json: ArrayParser)
    requires Within(newMeta, |keys|) && (Join(keys, '\n') == "" ==> GetKeys(text, json) != keys)
    ensures var written := Rewritten(text, keys);
      var shown, counted := GetKeys(written, json), CountedKeys(written, json);
      var meta := Trimmed(newMeta, |counted|);
      && ((Records(shown, meta) == Records(keys, newMeta) && counted == shown && StatusWithin(meta, |shown|))
          <==> Restorable(keys, json))
      && (Restorable(keys, json) ==> SheetOf(shown, meta).left == NOTHING_LEFT)
      && Records(shown, meta) == Paired(shown, |counted|, Records(keys, newMeta))
  {
    var written := Rewritten(text, keys);
    var shown, counted := GetKeys(written, json), CountedKeys(written, json);
    AfterRewrite(written, keys, newMeta, Trimmed(newMeta, |counted|), json);
    PairedRecords(shown, |counted|, keys, newMeta);
    NothingOutside(newMeta, |keys|);
  }

  lemma NothingKept(keys: seq<string>, meta: Meta, newMeta: Meta)
    requires Within(newMeta, 0)
    ensures newMeta == NO_META
    ensures forall size :: Trimmed(newMeta, size) == NO_META
    ensures Records(keys, NO_META) == ReenableAll(Records(keys, meta))
  {
    assert forall i :: i !in newMeta.status && i !in newMeta.time && i !in newMeta.reason;
  }

  /** Status entries beyond the key count are dropped; times and reasons are not looked at. */
  function Trimmed(meta: Meta, size: int): Meta {
    meta.(status := map i | i in meta.status && i < size :: meta.status[i])
  }

  // ---------- the actions as edits ----------

  datatype Action =
    | Disable(index: Option<int>)
    | Enable(index: Option<int>)
    | EnableAll
    | DisableAll
    | Delete(index: Option<int>)
    | DeleteDisabled
    | Append(pasted: string)
    | Replace(text: string)

  predicate ValidIndex(rs: seq<KeyRecord>, index: Option<int>) {
    index.Some? && 0 <= index.value < |rs|
  }

  function DeleteEdit(rs: seq<KeyRecord>, index: Option<int>): seq<KeyRecord> {
    if ValidIndex(rs, index) && |rs| > 1 then RemoveAt(rs, index.value) else rs
  }

  function DropEdit(rs: seq<KeyRecord>): seq<KeyRecord> {
    if CountStatus(rs, AUTO_DISABLED) == 0 then rs
    else if DropAutoDisabled(rs) == [] then ReenableAll(rs)
    else DropAutoDisabled(rs)
  }

  function AppendEdit(rs: seq<KeyRecord>, pasted: string): seq<KeyRecord> {
    rs + FreshRecords(Fresh(Names(KeysOf(rs)), PastedKeys(pasted)))
  }

  /** The edit that an action stands for. */
  function Edited(rs: seq<KeyRecord>, a: Action): seq<KeyRecord>
    requires !a.Replace?
  {
    match a
    case Disable(index) =>
      if ValidIndex(rs, index) then rs[index.value := rs[index.value].(status := MANUALLY_DISABLED)] else rs
    case Enable(index) =>
      if ValidIndex(rs, index) then rs[index.value := Reenabled(rs[index.value])] else rs
    case EnableAll => ReenableAll(rs)
    case DisableAll => DisableEvery(rs)
    case Delete(index) => DeleteEdit(rs, index)
    case DeleteDisabled => DropEdit(rs)
    case Append(pasted) => AppendEdit(rs, pasted)
  }

  // ---------- what the maps hold beyond the keys ----------

  /** Disable times and reasons at positions that no key has. */
  datatype Left = Left(time: map<int, int>, reason: map<int, string>)

  const NOTHING_LEFT := Left(map[], map[])

  function Outside<T>(m: map<int, T>, n: nat): map<int, T> {
    map i | i in m && !(0 <= i < n) :: m[i]
  }

  /** The records of the keys and what is left beyond them. */
  datatype Sheet = Sheet(rs: seq<KeyRecord>, left: Left)

  function SheetOf(keys: seq<string>, meta: Meta): Sheet {
    Sheet(Records(keys, meta), Left(Outside(meta.time, |keys|), Outside(meta.reason, |keys|)))
  }

  /** What a position holds, whether it has a key or not. */
  function SlotStatus(s: Sheet, i: int): int {
    if 0 <= i < |s.rs| then s.rs[i].status else ENABLED
  }

  function SlotTime(s: Sheet, i: int): Option<int> {
    if 0 <= i < |s.rs| then s.rs[i].time else Lookup(s.left.time, i)
  }

  function SlotReason(s: Sheet, i: int): Option<string> {
    if 0 <= i < |s.rs| then s.rs[i].reason else Lookup(s.left.reason, i)
  }

  function Below(n: nat): (numbers: set<int>)
    ensures forall i :: i in numbers <==> 0 <= i < n
  {
    if n == 0 then {} else Below(n - 1) + {n - 1}
  }

  function Slots(s: Sheet): set<int> {
    s.left.time.Keys + s.left.reason.Keys + Below(|s.rs|)
  }

  /** The positions get other keys: each key takes over what its position holds. */
  function Relabel(s: Sheet, keys: seq<string>): Sheet {
    Sheet(seq(|keys|, i requires 0 <= i < |keys| =>
                        KeyRecord(keys[i], SlotStatus(s, i), SlotTime(s, i), SlotReason(s, i))),
          Left(map i | i in Slots(s) && !(0 <= i < |keys|) && SlotTime(s, i).Some? :: SlotTime(s, i).value,
               map i | i in Slots(s) && !(0 <= i < |keys|) && SlotReason(s, i).Some? :: SlotReason(s, i).value))
  }

  lemma SlotsOfSheet(keys: seq<string>, meta: Meta, i: int)
    requires StatusWithin(meta, |keys|)
    ensures var s := SheetOf(keys, meta);
      && SlotTime(s, i) == Lookup(meta.time, i) && SlotReason(s, i) == Lookup(meta.reason, i)
      && SlotStatus(s, i) == StatusAt(meta, i)
      && (i in meta.time || i in meta.reason ==> i in Slots(s))
  {
  }

  lemma RelabelLeft(keys: seq<string>, meta: Meta, newKeys: seq<string>)
    requires StatusWithin(meta, |keys|)
    ensures SheetOf(newKeys, Trimmed(meta, |newKeys|)).left == Relabel(SheetOf(keys, meta), newKeys).left
  {
    forall i
      ensures SlotTime(SheetOf(keys, meta), i) == Lookup(meta.time, i)
      ensures SlotReason(SheetOf(keys, meta), i) == Lookup(meta.reason, i)
      ensures i in meta.time || i in meta.reason ==> i in Slots(SheetOf(keys, meta))
    {
      SlotsOfSheet(keys, meta, i);
    }
    assert Outside(meta.time, |newKeys|) == Relabel(SheetOf(keys, meta), newKeys).left.time;
    assert Outside(meta.reason, |newKeys|) == Relabel(SheetOf(keys, meta), newKeys).left.reason;
  }

  lemma RelabelSheet(keys: seq<string>, meta: Meta, newKeys: seq<string>)
    requires StatusWithin(meta, |keys|)
    ensures SheetOf(newKeys, Trimmed(meta, |newKeys|)) == Relabel(SheetOf(keys, meta), newKeys)
    ensures StatusWithin(Trimmed(meta, |newKeys|), |newKeys|)
  {
    RelabelLeft(keys, meta, newKeys);
    var rs := Relabel(SheetOf(keys, meta), newKeys).rs;
    forall i | 0 <= i < |newKeys|
      ensures RecordAt(newKeys[i], Trimmed(meta, |newKeys|), i) == rs[i]
    {
      SlotsOfSheet(keys, meta, i);
    }
    assert Records(newKeys, Trimmed(meta, |newKeys|)) == rs;
  }

  /** The positions after the keys are free of times and reasons as far as `count`. */
  ghost predicate FreeAfter(s: Sheet, count: nat) {
    forall i :: |s.rs| <= i < |s.rs| + count ==> i !in s.left.time && i !in s.left.reason
  }

  /** Appended keys are fresh exactly when nothing is left at their positions; the old
      records stay in any case. */
  lemma AppendFreshIff(s: Sheet, more: seq<string>)
    ensures Relabel(s, KeysOf(s.rs) + more).rs[..|s.rs|] == s.rs
    ensures Relabel(s, KeysOf(s.rs) + more).rs == s.rs + FreshRecords(more) <==> FreeAfter(s, |more|)
  {
    var relabelled, appended := Relabel(s, KeysOf(s.rs) + more).rs, s.rs + FreshRecords(more);
    assert relabelled[..|s.rs|] == s.rs;
    if FreeAfter(s, |more|) {
      assert relabelled == appended;
    } else {
      var i :| |s.rs| <= i < |s.rs| + |more| && (i in s.left.time || i in s.left.reason);
      assert appended[i] == FreshRecords(more)[i - |s.rs|];
      assert relabelled[i] != appended[i];
    }
  }

  /** How data come to be left: fewer keys replace the old ones, and a key appended later
      shows the disable time and reason of the dead key at its position, though enabled. */
  lemma DeadDataReturn(s: Sheet, kept: seq<string>, more: seq<string>, i: nat)
    requires |kept| <= i < |s.rs| && i < |kept| + |more|
    ensures var shown := Relabel(Relabel(s, kept), kept + more).rs[i];
      && shown.key == more[i - |kept|] && shown.status == ENABLED
      && shown.time == s.rs[i].time && shown.reason == s.rs[i].reason
  {
    var t := Relabel(s, kept);
    assert i in Slots(s) && SlotTime(s, i) == s.rs[i].time && SlotReason(s, i) == s.rs[i].reason;
    assert SlotTime(t, i) == s.rs[i].time && SlotReason(t, i) == s.rs[i].reason;
  }

  function AppendSheet(s: Sheet, pasted: string): Sheet {
    Relabel(s, KeysOf(s.rs) + Fresh(Names(KeysOf(s.rs)), PastedKeys(pasted)))
  }

  function DeleteSheet(s: Sheet, index: Option<int>): Sheet {
    if ValidIndex(s.rs, index) && |s.rs| > 1 then Sheet(RemoveAt(s.rs, index.value), NOTHING_LEFT) else s
  }

  function DropSheet(s: Sheet): Sheet {
    if CountStatus(s.rs, AUTO_DISABLED) == 0 then s else Sheet(DropEdit(s.rs), NOTHING_LEFT)
  }

  /** What an action does to records and left data. */
  function EditedSheet(s: Sheet, a: Action, json: ArrayParser): Sheet {
    match a
    case EnableAll => Sheet(ReenableAll(s.rs), NOTHING_LEFT)
    case Delete(index) => DeleteSheet(s, index)
    case DeleteDisabled => DropSheet(s)
    case Append(pasted) => AppendSheet(s, pasted)
    case Replace(text) => if text == "" then s else Relabel(s, GetKeys(text, json))
    case _ => s.(rs := Edited(s.rs, a))
  }

  function EditedAll(s: Sheet, actions: seq<Action>, n: nat, json: ArrayParser): Sheet
    requires n <= |actions|
  {
    if n == 0 then s else EditedSheet(EditedAll(s, actions, n - 1, json), actions[n - 1], json)
  }

  function RecordEdits(rs: seq<KeyRecord>, actions: seq<Action>, n: nat): seq<KeyRecord>
    requires n <= |actions| && forall i :: 0 <= i < n ==> !actions[i].Replace?
  {
    if n == 0 then rs else Edited(RecordEdits(rs, actions, n - 1), actions[n - 1])
  }

  lemma ReplaceAppendSheet(s: Sheet, text: string, pasted: string, json: ArrayParser,
                           kept: seq<string>, more: seq<string>)
    requires text != "" && kept == GetKeys(text, json) && more == Fresh(Names(kept), PastedKeys(pasted))
    ensures EditedSheet(EditedSheet(s, Replace(text), json), Append(pasted), json)
         == Relabel(Relabel(s, kept), kept + more)
  {
    KeysOfRelabel(s, kept);
  }

  /** The same as two requests: a replacement by fewer keys, then an append. */
  lemma ReplaceThenAppend(s: Sheet, text: string, pasted: string, json: ArrayParser,
                          kept: seq<string>, more: seq<string>, i: nat)
    requires text != "" && kept == GetKeys(text, json) && more == Fresh(Names(kept), PastedKeys(pasted))
    requires |kept| <= i < |s.rs| && i < |kept| + |more|
    ensures var end := EditedSheet(EditedSheet(s, Replace(text), json), Append(pasted), json);
      && i < |end.rs| && end.rs[i].status == ENABLED
      && end.rs[i].time == s.rs[i].time && end.rs[i].reason == s.rs[i].reason
  {
    ReplaceAppendSheet(s, text, pasted, json, kept, more);
    DeadDataReturn(s, kept, more, i);
  }

  lemma KeysOfRelabel(s: Sheet, keys: seq<string>)
    ensures KeysOf(Relabel(s, keys).rs) == keys
  {
  }

  lemma NothingLeftStays(s: Sheet, a: Action, json: ArrayParser)
    requires s.left == NOTHING_LEFT && !a.Replace?
    ensures EditedSheet(s, a, json) == Sheet(Edited(s.rs, a), NOTHING_LEFT)
  {
    if a.Append? {
      var more := Fresh(Names(KeysOf(s.rs)), PastedKeys(a.pasted));
      AppendFreshIff(s, more);
      var left := Relabel(s, KeysOf(s.rs) + more).left;
      assert left.time == map[] && left.reason == map[];
    }
  }

  /** With nothing left and no replacement, the actions are plain edits of the records. */
  lemma {:induction false} PlainEdits(s: Sheet, actions: seq<Action>, n: nat, json: ArrayParser)
    requires n <= |actions| && s.left == NOTHING_LEFT && forall i :: 0 <= i < n ==> !actions[i].Replace?
    ensures EditedAll(s, actions, n, json) == Sheet(RecordEdits(s.rs, actions, n), NOTHING_LEFT)
  {
    if n > 0 {
      PlainEdits(s, actions, n - 1, json);
      NothingLeftStays(EditedAll(s, actions, n - 1, json), actions[n - 1], json);
    }
  }

  // ---------- ordinary keys stay ordinary ----------

  predicate OpensArray(text: string) {
    text != "" && text[0] == '['
  }

  predicate PlainPaste(pasted: string) {
    forall k :: k in PastedKeys(pasted) ==> !OpensArray(k)
  }

  /** Appended keys do not open like a JSON array; replacing keys are ordinary. */
  predicate PlainAction(a: Action, json: ArrayParser) {
    && (a.Append? ==> PlainPaste(a.pasted))
    && (a.Replace? && a.text != "" ==> GetKeys(a.text, json) != [] && AllPlain(GetKeys(a.text, json)))
  }

  /** At least one key, and only ordinary ones. */
  predicate Ordinary(rs: seq<KeyRecord>) {
    rs != [] && AllPlain(KeysOf(rs))
  }

  lemma FreshIsPasted(seen: set<string>, lines: seq<string>)
    requires forall l :: l in lines ==> TrimSpace(l) == l
    ensures forall k :: k in Fresh(seen, lines) ==> k in lines && TrimSpace(k) == k != ""
  {
    FreshFacts(seen, lines);
  }

  lemma PlainConcat(keys: seq<string>, more: seq<string>)
    requires AllPlain(keys) && forall k :: k in more ==> Plain(k)
    ensures AllPlain(keys + more)
  {
    forall i | 0 <= i < |keys + more|
      ensures Plain((keys + more)[i])
    {
      assert i >= |keys| ==> (keys + more)[i] in more;
    }
  }

  lemma PlainCombined(keys: seq<string>, pasted: string, json: ArrayParser)
    requires keys != [] && AllPlain(keys) && PlainPaste(pasted)
    ensures var all := keys + Fresh(Names(keys), PastedKeys(pasted)); AllPlain(all) && Restorable(all, json)
  {
    AddedLines(Names(keys), pasted);
    FreshIsPasted(Names(keys), PastedKeys(pasted));
    PlainConcat(keys, Fresh(Names(keys), PastedKeys(pasted)));
    PlainRestorable(keys + Fresh(Names(keys), PastedKeys(pasted)), json);
  }

  /** Append mode sees the channel's keys, and the list it writes can be stored. */
  predicate Appendable(text: string, pasted: string, json: ArrayParser) {
    ExistingKeys(text, json) == GetKeys(text, json) && Restorable(Combined(text, pasted, json), json)
  }

  lemma PlainAppendable(text: string, pasted: string, json: ArrayParser)
    requires GetKeys(text, json) != [] && AllPlain(GetKeys(text, json)) && PlainPaste(pasted)
    ensures text != "" && Appendable(text, pasted, json)
  {
    PlainText(text, json);
    PlainCombined(GetKeys(text, json), pasted, json);
  }

  lemma AppendKeepsPlain(s: Sheet, pasted: string, json: ArrayParser)
    requires Ordinary(s.rs) && PlainPaste(pasted)
    ensures Ordinary(AppendSheet(s, pasted).rs)
  {
    var all := KeysOf(s.rs) + Fresh(Names(KeysOf(s.rs)), PastedKeys(pasted));
    PlainCombined(KeysOf(s.rs), pasted, json);
    KeysOfRelabel(s, all);
  }

  lemma DropKeepsPlain(rs: seq<KeyRecord>)
    requires Ordinary(rs)
    ensures Ordinary(DropEdit(rs))
  {
    PlainSurvivors(rs, |rs|);
    SameKeysPlain(rs, ReenableAll(rs));
  }

  /** Every action leaves ordinary keys. */
  lemma EditKeepsPlain(s: Sheet, a: Action, json: ArrayParser)
    requires Ordinary(s.rs) && PlainAction(a, json)
    ensures Ordinary(EditedSheet(s, a, json).rs)
  {
    match a
    case Delete(index) =>
      if ValidIndex(s.rs, index) && |s.rs| > 1 {
        PlainAfterDelete(s.rs, index.value, json);
      }
    case DeleteDisabled => DropKeepsPlain(s.rs);
    case Append(pasted) => AppendKeepsPlain(s, pasted, json);
    case Replace(text) => KeysOfRelabel(s, GetKeys(text, json));
    case EnableAll => SameKeysPlain(s.rs, ReenableAll(s.rs));
    case DisableAll => SameKeysPlain(s.rs, DisableEvery(s.rs));
    case _ => SameKeysPlain(s.rs, Edited(s.rs, a));
  }

  lemma SameKeysPlain(rs: seq<KeyRecord>, edited: seq<KeyRecord>)
    requires AllPlain(KeysOf(rs)) && |edited| == |rs|
    requires forall i :: 0 <= i < |rs| ==> edited[i].key == rs[i].key
    ensures AllPlain(KeysOf(edited))
  {
    assert KeysOf(edited) == KeysOf(rs);
  }

  /** A text that shows ordinary keys is no malformed array. */
  lemma PlainText(text: string, json: ArrayParser)
    requires GetKeys(text, json) != [] && AllPlain(GetKeys(text, json))
    ensures text != "" && ExistingKeys(text, json) == GetKeys(text, json)
  {
    if Bracketed(text) && json(TrimSpace(text)).None? {
      var keys := Fields(text, '\n');
      assert Plain(keys[0]);
      VisibleOfFields(text);
      VisibleOfJoin(keys, '\n');
    }
  }

  // ---------- the channel ----------

  datatype Response = Rejected | Accepted(count: nat)

  class Channel {
    var key: string        // in memory
    var storedKey: string  // in the database row
    var size: int
    var meta: Meta
    const json: ArrayParser

    function Keys(): seq<string>
      reads this
    {
      GetKeys(key, json)
    }

    function View(): (rs: seq<KeyRecord>)
      reads this
    {
      Records(Keys(), meta)
    }

    /** The records and what is left beyond them. */
    function Whole(): Sheet
      reads this
    {
      SheetOf(Keys(), meta)
    }

    /** The state in which a request finds the channel, unless its text is an empty array:
        the size is right and the status map is trimmed; times and reasons are whatever
        earlier key lists left. */
    ghost predicate Valid()
      reads this
    {
      && key == storedKey
      && CountedKeys(key, json) == Keys()
      && size == |Keys()|
      && StatusWithin(meta, |Keys()|)
    }

    /** model.Channel.Update: recounts the keys, trims the status map and writes the row.
        An empty key text is not written; the stored one is counted and stays. */
    method Update()
      modifies this
      ensures key == storedKey == (if old(key) != "" then old(key) else old(storedKey))
      ensures size == |CountedKeys(key, json)|
      ensures meta == Trimmed(old(meta), size)
    {
      var text := if key != "" then key else storedKey;
      size := |CountedKeys(text, json)|;
      meta := Trimmed(meta, size);
      storedKey := text;
      key := text;
    }

    method DisableKey(keyIndex: Option<int>) returns (r: Response)
      requires Valid()
      modifies this
      ensures Valid()
      ensures r.Rejected? <==> !(keyIndex.Some? && 0 <= keyIndex.value < |old(View())|)
      ensures r.Rejected? ==> View() == old(View())
      ensures r.Accepted? ==>
        View() == old(View())[keyIndex.value := old(View())[keyIndex.value].(status := 2)]
      ensures Whole().left == old(Whole().left)
    {
      if keyIndex.None? { return Rejected; }
      var i := keyIndex.value;
      if i < 0 || i >= size { return Rejected; }
      DisableRecord(Keys(), meta, i);
      meta := Disabled(meta, i);
      Update();
      return Accepted(1);
    }

    method EnableKey(keyIndex: Option<int>) returns (r: Response)
      requires Valid()
      modifies this
      ensures Valid()
      ensures r.Rejected? <==> !(keyIndex.Some? && 0 <= keyIndex.value < |old(View())|)
      ensures r.Rejected? ==> View() == old(View())
      ensures r.Accepted? ==>
        View() == old(View())[keyIndex.value := KeyRecord(old(View())[keyIndex.value].key, 1, None, None)]
      ensures Whole().left == old(Whole().left)
    {
      if keyIndex.None? { return Rejected; }
      var i := keyIndex.value;
      if i < 0 || i >= size { return Rejected; }
      ForgetRecord(Keys(), meta, i);
      ForgetInside(meta, i, |Keys()|);
      meta := Forgotten(meta, i);
      Update();
      return Accepted(1);
    }

    /** Reports the size of the status map, which EnableAllCountIff relates to the keys. */
    method EnableAllKeys() returns (r: Response)
      requires Valid()
      modifies this
      ensures Valid()
      ensures View() == ReenableAll(old(View())) && Whole().left == NOTHING_LEFT
      ensures |View()| == |old(View())|
      ensures forall i :: 0 <= i < |View()| ==> View()[i] == KeyRecord(old(View())[i].key, 1, None, None)
      ensures r == Accepted(|old(meta).status|)
    {
      var enabledCount := |meta.status|;
      meta := NO_META;
      Update();
      return Accepted(enabledCount);
    }

    method DisableAllKeys() returns (r: Response)
      requires Valid()
      modifies this
      ensures Valid()
      ensures View() == DisableEvery(old(View())) && Whole().left == old(Whole().left)
      ensures |View()| == |old(View())|
      ensures forall i :: 0 <= i < |View()| ==>
        View()[i] == old(View())[i].(status := if old(View())[i].status == 1 then 2 else old(View())[i].status)
      ensures CountStatus(old(View()), 1) == 0 ==> r.Rejected?
      ensures CountStatus(old(View()), 1) > 0 ==> r == Accepted(CountStatus(old(View()), 1))
    {
      var newMeta, disabledCount := DisableEnabledKeys(Keys(), size, meta);
      if disabledCount == 0 {
        return Rejected;
      }
      meta := newMeta;
      Update();
      assert meta.status == newMeta.status;
      return Accepted(disabledCount);
    }

    /** Writing a rebuilt key list with its maps. */
    method WriteKeys(keys: seq<string>, newMeta: Meta)
      requires key == storedKey && Within(newMeta, |keys|) && (Join(keys, '\n') == "" ==> Keys() != keys)
      modifies this
      ensures key == storedKey == Rewritten(old(key), keys)
      ensures size == |CountedKeys(key, json)| && meta == Trimmed(newMeta, size)
      ensures (View() == Records(keys, newMeta) && Valid()) <==> Restorable(keys, json)
      ensures Restorable(keys, json) ==> Whole().left == NOTHING_LEFT
      ensures View() == Paired(Keys(), size, Records(keys, newMeta))
    {
      RewriteOutcome(key, keys, newMeta, json);
      key := Join(keys, '\n');
      size := |keys|;
      meta := newMeta;
      Update();
    }

    method DeleteKey(keyIndex: Option<int>) returns (r: Response)
      requires Valid()
      modifies this
      ensures r.Rejected? <==> !(keyIndex.Some? && 0 <= keyIndex.value < |old(View())| && |old(View())| > 1)
      ensures r.Rejected? ==> Valid() && View() == old(View())
      ensures r.Accepted? ==>
        var remaining := RemoveAt(old(View()), keyIndex.value);
        && (View() == remaining && Valid() <==> Restorable(KeysOf(remaining), json))
        && key == storedKey == Rewritten(old(key), KeysOf(remaining)) && size == |CountedKeys(key, json)|
        && View() == Paired(Keys(), size, remaining)
        && (Restorable(KeysOf(remaining), json) ==> Whole().left == NOTHING_LEFT)
      ensures r.Rejected? ==> Whole() == old(Whole())
    {
      if keyIndex.None? { return Rejected; }
      var keyIndex := keyIndex.value;
      if keyIndex < 0 || keyIndex >= size { return Rejected; }

      var remainingKeys, newMeta := CopyAllBut(GetKeys(key, json), meta, keyIndex);
      if |remainingKeys| == 0 {
        return Rejected;
      }
      KeysOfRecords(remainingKeys, newMeta);
      assert Join(remainingKeys, '\n') == "" ==> |Keys()| != |remainingKeys|;
      WriteKeys(remainingKeys, newMeta);
      return Accepted(1);
    }

    method DeleteDisabledKeys() returns (r: Response)
      requires Valid()
      modifies this
      ensures r == (if CountStatus(old(View()), 3) == 0 then Rejected else Accepted(CountStatus(old(View()), 3)))
      ensures r.Rejected? ==> Valid() && View() == old(View())
      ensures r.Accepted? ==>
        var target := DropAutoDisabled(old(View()));
        && ((View() == target && Valid()) <==> Restorable(KeysOf(target), json))
        && key == storedKey == Rewritten(old(key), KeysOf(target)) && size == |CountedKeys(key, json)|
        && View() == Paired(Keys(), size, target)
        && (Restorable(KeysOf(target), json) ==> Whole().left == NOTHING_LEFT)
      ensures r.Rejected? ==> Whole() == old(Whole())
      // with nothing left to keep, every key stays and is enabled again
      ensures r.Accepted? && DropAutoDisabled(old(View())) == [] ==>
        Valid() && View() == ReenableAll(old(View())) && Whole().left == NOTHING_LEFT
    {
      var remainingKeys, newMeta, deletedCount := CopySurvivors(GetKeys(key, json), meta);
      if deletedCount == 0 {
        return Rejected;
      }
      ghost var keys, before, target := Keys(), meta, DropAutoDisabled(View());
      DropFirstLength(View(), |View()|);
      KeysOfRecords(remainingKeys, newMeta);
      assert Join(remainingKeys, '\n') == "" ==> |keys| != |remainingKeys|;
      WriteKeys(remainingKeys, newMeta);
      if target == [] {
        NothingKept(keys, before, newMeta);
        NothingOutside(NO_META, |keys|);
      }
      return Accepted(deletedCount);
    }

    /** Append mode of UpdateChannel for an ordinary multi-key channel: the new keys take over
        what their positions hold, so that they are fresh exactly when nothing is left there. */
    method AppendKeys(pasted: string)
      requires Valid() && key != ""
      modifies this
      ensures key == storedKey == Rewritten(old(key), Combined(old(key), pasted, json))
      ensures size == |CountedKeys(key, json)| && meta == Trimmed(old(meta), size)
      ensures Appendable(old(key), pasted, json) ==>
        var added := Fresh(Names(old(Keys())), PastedKeys(pasted));
        && Valid() && Whole() == Relabel(old(Whole()), old(Keys()) + added)
        && (View() == old(View()) + FreshRecords(added) <==> FreeAfter(old(Whole()), |added|))
    {
      ghost var added := Fresh(Names(Keys()), PastedKeys(pasted));
      RelabelSheet(Keys(), meta, Keys() + added);
      KeysOfRecords(Keys(), meta);
      AppendFreshIff(Whole(), added);
      var existingKeys := ExistingKeys(storedKey, json);
      var deduped := Deduplicate(existingKeys, PastedKeys(pasted));
      key := Join(existingKeys + deduped, '\n');
      Update();
    }

    /** UpdateChannel without append mode: a new key text replaces the old one and the keys
        take over what their positions hold; an empty text changes nothing. */
    method ReplaceKeys(text: string)
      requires Valid()
      modifies this
      ensures key == storedKey == if text != "" then text else old(key)
      ensures size == |CountedKeys(key, json)| && meta == Trimmed(old(meta), size)
      ensures Valid() <==> CountedKeys(key, json) == Keys()
      ensures Valid() ==> Whole() == Relabel(old(Whole()), Keys())
    {
      key := text;
      ghost var keys := GetKeys(if text != "" then text else storedKey, json);
      RelabelSheet(old(Keys()), meta, keys);
      Update();
    }

    method DeletePlain(index: Option<int>)
      requires Valid() && Ordinary(View())
      modifies this
      ensures Valid() && Whole() == DeleteSheet(old(Whole()), index)
    {
      if ValidIndex(View(), index) && |View()| > 1 {
        PlainAfterDelete(View(), index.value, json);
      }
      var r := DeleteKey(index);
    }

    method DeleteDisabledPlain()
      requires Valid() && Ordinary(View())
      modifies this
      ensures Valid() && Whole() == DropSheet(old(Whole()))
    {
      if DropAutoDisabled(View()) != [] {
        SurvivorsRestorable(View(), json);
      }
      var r := DeleteDisabledKeys();
    }

    method AppendPlain(pasted: string)
      requires Valid() && Ordinary(View()) && PlainPaste(pasted)
      modifies this
      ensures Valid() && Whole() == AppendSheet(old(Whole()), pasted)
    {
      KeysOfRecords(Keys(), meta);
      PlainAppendable(key, pasted, json);
      AppendKeys(pasted);
    }

    method ReplacePlain(text: string)
      requires Valid() && PlainAction(Replace(text), json)
      modifies this
      ensures Valid() && Whole() == if text == "" then old(Whole()) else Relabel(old(Whole()), GetKeys(text, json))
    {
      ReplaceKeys(text);
      if text == "" {
        assert Trimmed(old(meta), size) == old(meta);
      }
    }

    /** One action on a channel with ordinary keys. */
    method Perform(a: Action)
      requires Valid() && Ordinary(View()) && PlainAction(a, json)
      modifies this
      ensures Valid() && Whole() == EditedSheet(old(Whole()), a, json) && Ordinary(View())
    {
      EditKeepsPlain(Whole(), a, json);
      match a {
        case Disable(index) => var r := DisableKey(index);
        case Enable(index) => var r := EnableKey(index);
        case EnableAll => var r := EnableAllKeys();
        case DisableAll => var r := DisableAllKeys();
        case Delete(index) => DeletePlain(index);
        case DeleteDisabled => DeleteDisabledPlain();
        case Append(pasted) => AppendPlain(pasted);
        case Replace(text) => ReplacePlain(text);
      }
    }

    /** Any sequence of actions on a channel with ordinary keys, one request after the other,
        edits records and left data as specified and keeps the channel consistent.  With
        nothing left and no replacement these are plain edits of the records. */
    method PerformAll(actions: seq<Action>)
      requires Valid() && Ordinary(View())
      requires forall i :: 0 <= i < |actions| ==> PlainAction(actions[i], json)
      modifies this
      ensures Valid() && Ordinary(View()) && Whole() == EditedAll(old(Whole()), actions, |actions|, json)
      ensures old(Whole().left) == NOTHING_LEFT && (forall i :: 0 <= i < |actions| ==> !actions[i].Replace?) ==>
        View() == RecordEdits(old(View()), actions, |actions|)
    {
      for i := 0 to |actions|
        invariant Valid() && Ordinary(View()) && Whole() == EditedAll(old(Whole()), actions, i, json)
      {
        Perform(actions[i]);
      }
      if old(Whole().left) == NOTHING_LEFT && (forall i :: 0 <= i < |actions| ==> !actions[i].Replace?) {
        PlainEdits(old(Whole()), actions, |actions|, json);
      }
    }
  }
}
