/** String helpers of the Go standard library that several components rely on:
    trimming, splitting on one character and joining. */
module Text {
  import opened Basics

  /** unicode.IsSpace */
  predicate IsSpace(c: char) {
    var n := c as int;
    || 9 <= n <= 13 || n == 32 || n == 0x85 || n == 0xA0 || n == 0x1680
    || 0x2000 <= n <= 0x200A || n == 0x2028 || n == 0x2029 || n == 0x202F || n == 0x205F || n == 0x3000
  }

  function TrimLeft(s: string, p: char -> bool): (r: string)
    ensures |r| <= |s|
    ensures r != "" ==> !p(r[0])
    ensures forall c :: c in r ==> c in s
  {
    if s != "" && p(s[0]) then TrimLeft(s[1..], p) else s
  }

  function TrimRight(s: string, p: char -> bool): (r: string)
    ensures |r| <= |s| && r == s[..|r|]
    ensures r != "" ==> !p(r[|r| - 1])
  {
    if s != "" && p(s[|s| - 1]) then TrimRight(s[..|s| - 1], p) else s
  }

  /** strings.TrimFunc: drops the characters satisfying `p` at both ends. */
  function Trim(s: string, p: char -> bool): (r: string)
    ensures r != "" ==> !p(r[0]) && !p(r[|r| - 1])
    ensures forall c :: c in r ==> c in s
  {
    TrimRight(TrimLeft(s, p), p)
  }

  function TrimSpace(s: string): (r: string)
    ensures r != "" ==> !IsSpace(r[0]) && !IsSpace(r[|r| - 1])
    ensures forall c :: c in r ==> c in s
  {
    Trim(s, IsSpace)
  }

  /** Exactly the texts with clean ends are left alone by trimming. */
  lemma TrimFixpoint(s: string, p: char -> bool)
    ensures Trim(s, p) == s <==> (s == "" || (!p(s[0]) && !p(s[|s| - 1])))
  {
  }

  lemma TrimIdempotent(s: string, p: char -> bool)
    ensures Trim(Trim(s, p), p) == Trim(s, p)
  {
    TrimFixpoint(Trim(s, p), p);
  }

  /** The characters with the Unicode property White_Space. */
  lemma SpacesAre(c: char)
    ensures IsSpace(c) <==> c as int in {
      9, 10, 11, 12, 13, 32, 133, 160, 5760, 8192, 8193, 8194, 8195, 8196, 8197, 8198, 8199, 8200, 8201, 8202,
      8232, 8233, 8239, 8287, 12288}
  {
  }

  lemma {:induction false} TrimLeftDrops(s: string, p: char -> bool)
    ensures TrimLeft(s, p) == s[|s| - |TrimLeft(s, p)|..]
    ensures forall i :: 0 <= i < |s| - |TrimLeft(s, p)| ==> p(s[i])
  {
    if s != "" && p(s[0]) {
      TrimLeftDrops(s[1..], p);
    }
  }

  /** What trimming takes away at either end are white space characters only. */
  lemma TrimmedAway(s: string)
    ensures exists i, j ::
      0 <= i <= j <= |s| && TrimSpace(s) == s[i..j] && forall k :: 0 <= k < i || j <= k < |s| ==> IsSpace(s[k])
  {
    var u := TrimLeft(s, IsSpace);
    TrimLeftDrops(s, IsSpace);
    TrimRightDrops(u, IsSpace);
    var i := |s| - |u|;
    var j := i + |TrimSpace(s)|;
    assert TrimSpace(s) == s[i..j];
    forall k | 0 <= k < i || j <= k < |s|
      ensures IsSpace(s[k])
    {
      assert k >= j ==> s[k] == u[k - i];
    }
  }

  /** strings.Split for a one-character separator. */
  function Split(s: string, sep: char): (parts: seq<string>)
    ensures |parts| >= 1
    ensures forall i :: 0 <= i < |parts| ==> sep !in parts[i]
  {
    if s == "" then [""]
    else
      var rest := Split(s[1..], sep);
      if s[0] == sep then [""] + rest else [[s[0]] + rest[0]] + rest[1..]
  }

  /** strings.Join */
  function Join(parts: seq<string>, sep: char): string {
    if |parts| == 0 then "" else if |parts| == 1 then parts[0]
    else parts[0] + [sep] + Join(parts[1..], sep)
  }

  lemma SplitPrefix(head: string, tail: string, sep: char)
    requires sep !in head
    ensures Split(head + [sep] + tail, sep) == [head] + Split(tail, sep)
  {
    SplitTwo(head, tail, sep);
    SplitWhole(head, sep);
  }

  /** Splitting a joined text is splitting its halves. */
  lemma {:induction false} SplitTwo(a: string, b: string, sep: char)
    ensures Split(a + [sep] + b, sep) == Split(a, sep) + Split(b, sep)
  {
    var s := a + [sep] + b;
    if a == "" {
      assert s[1..] == b;
    } else {
      assert s[1..] == a[1..] + [sep] + b;
      SplitTwo(a[1..], b, sep);
    }
  }

  lemma {:induction false} SplitWhole(s: string, sep: char)
    requires sep !in s
    ensures Split(s, sep) == [s]
  {
    if s != "" {
      SplitWhole(s[1..], sep);
      assert [s[0]] + s[1..] == s;
    }
  }

  /** Splitting undoes joining. */
  lemma {:induction false} SplitJoin(parts: seq<string>, sep: char)
    requires |parts| >= 1
    requires forall i :: 0 <= i < |parts| ==> sep !in parts[i]
    ensures Split(Join(parts, sep), sep) == parts
  {
    if |parts| == 1 {
      SplitWhole(parts[0], sep);
    } else {
      SplitJoin(parts[1..], sep);
      SplitPrefix(parts[0], Join(parts[1..], sep), sep);
    }
  }

  /** The list stored as one text, read back: empty text is the empty list,
      anything else is trimmed of separators and split. */
  function Fields(text: string, sep: char): (parts: seq<string>)
    ensures forall i :: 0 <= i < |parts| ==> sep !in parts[i]
  {
    if text == "" then [] else Split(Trim(text, c => c == sep), sep)
  }

  /** Lists that survive being stored as one text. */
  predicate Storable(parts: seq<string>, sep: char) {
    && (forall i :: 0 <= i < |parts| ==> sep !in parts[i])
    && (parts != [] ==> parts[0] != "" && parts[|parts| - 1] != "")
  }

  lemma {:induction false} SplitEnds(s: string, sep: char)
    requires s != ""
    ensures s[0] != sep ==> Split(s, sep)[0] != ""
    ensures s[|s| - 1] != sep ==> Split(s, sep)[|Split(s, sep)| - 1] != ""
  {
    if |s| > 1 {
      SplitEnds(s[1..], sep);
    }
  }

  lemma {:induction false} JoinEnds(parts: seq<string>, sep: char)
    requires Storable(parts, sep) && parts != []
    ensures var t := Join(parts, sep); t != "" && t[0] != sep && t[|t| - 1] != sep
  {
    if |parts| == 2 {
      assert Join(parts[1..], sep) == parts[1];
    } else if |parts| > 2 {
      JoinLast(parts[1..], sep);
    }
  }

  lemma {:induction false} JoinLast(parts: seq<string>, sep: char)
    requires parts != [] && parts[|parts| - 1] != "" && sep !in parts[|parts| - 1]
    ensures var t := Join(parts, sep); t != "" && t[|t| - 1] != sep
  {
    if |parts| > 1 {
      JoinLast(parts[1..], sep);
    }
  }

  /** Storing a list as one text and reading it back gives the same list exactly
      when no item contains the separator and neither end is empty. */
  lemma FieldsJoin(parts: seq<string>, sep: char)
    ensures Fields(Join(parts, sep), sep) == parts <==> Storable(parts, sep)
  {
    var t := Join(parts, sep);
    var isSep := c => c == sep;
    if parts != [] && Storable(parts, sep) {
      JoinEnds(parts, sep);
      TrimFixpoint(t, isSep);
      SplitJoin(parts, sep);
    }
    if parts != [] && Fields(t, sep) == parts {
      var u := Trim(t, isSep);
      if u != "" {
        SplitEnds(u, sep);
      }
    }
  }

  /** The list read back from a text that is not just separators has proper ends. */
  lemma FieldsStorable(text: string, sep: char)
    ensures Fields(text, sep) == [""] || Storable(Fields(text, sep), sep)
  {
    if text != "" {
      var u := Trim(text, c => c == sep);
      if u != "" {
        SplitEnds(u, sep);
      }
    }
  }

  /** Joining undoes splitting. */
  lemma {:induction false} JoinSplit(s: string, sep: char)
    ensures Join(Split(s, sep), sep) == s
  {
    if s != "" {
      JoinSplit(s[1..], sep);
      var rest := Split(s[1..], sep);
      if s[0] == sep {
        assert Split(s, sep)[1..] == rest;
        assert Join(Split(s, sep), sep) == "" + [sep] + Join(rest, sep);
      } else if |rest| > 1 {
        assert Split(s, sep)[1..] == rest[1..];
        assert Join(Split(s, sep), sep) == [s[0]] + (rest[0] + [sep] + Join(rest[1..], sep));
      }
    }
  }

  // ---------- the first character that is not white space ----------

  lemma {:induction false} TrimLeftEmptyIff(s: string, p: char -> bool)
    ensures TrimLeft(s, p) == "" <==> forall c :: c in s ==> p(c)
  {
    if s != "" {
      TrimLeftEmptyIff(s[1..], p);
      assert s == [s[0]] + s[1..];
    }
  }

  lemma {:induction false} TrimLeftAppend(s: string, t: string, p: char -> bool)
    requires TrimLeft(s, p) != ""
    ensures TrimLeft(s + t, p) == TrimLeft(s, p) + t
  {
    if p(s[0]) {
      TrimLeftAppend(s[1..], t, p);
      assert (s + t)[1..] == s[1..] + t;
    }
  }

  lemma {:induction false} TrimLeftTwice(s: string, p: char -> bool, q: char -> bool)
    requires forall c :: q(c) ==> p(c)
    ensures TrimLeft(TrimLeft(s, q), p) == TrimLeft(s, p)
  {
    if s != "" && q(s[0]) {
      TrimLeftTwice(s[1..], p, q);
    }
  }

  lemma {:induction false} TrimRightKeepsFirst(s: string, p: char -> bool)
    requires s != "" && !p(s[0])
    ensures TrimRight(s, p) != "" && TrimRight(s, p)[0] == s[0]
  {
    if p(s[|s| - 1]) {
      TrimRightKeepsFirst(s[..|s| - 1], p);
    }
  }

  lemma {:induction false} TrimRightDrops(s: string, p: char -> bool)
    ensures forall i :: |TrimRight(s, p)| <= i < |s| ==> p(s[i])
  {
    if s != "" && p(s[|s| - 1]) {
      TrimRightDrops(s[..|s| - 1], p);
    }
  }

  function FirstVisible(s: string): Option<char> {
    if TrimSpace(s) == "" then None else Some(TrimSpace(s)[0])
  }

  lemma VisibleOfTrimLeft(s: string)
    ensures FirstVisible(s) == if TrimLeft(s, IsSpace) == "" then None else Some(TrimLeft(s, IsSpace)[0])
  {
    if TrimLeft(s, IsSpace) != "" {
      TrimRightKeepsFirst(TrimLeft(s, IsSpace), IsSpace);
    }
  }

  lemma VisibleAppend(s: string, t: string)
    requires TrimSpace(s) != ""
    ensures FirstVisible(s + t) == FirstVisible(s)
  {
    VisibleOfTrimLeft(s);
    VisibleOfTrimLeft(s + t);
    TrimLeftAppend(s, t, IsSpace);
  }

  /** Trimming some of the white space leaves the first visible character. */
  lemma VisibleOfTrim(s: string, p: char -> bool)
    requires forall c :: p(c) ==> IsSpace(c)
    ensures FirstVisible(Trim(s, p)) == FirstVisible(s)
  {
    var u := TrimLeft(s, p);
    var r := TrimRight(u, p);
    TrimLeftTwice(s, IsSpace, p);
    VisibleOfTrimLeft(s);
    VisibleOfTrimLeft(u);
    VisibleOfTrimLeft(r);
    assert u == r + u[|r|..];
    if TrimLeft(r, IsSpace) != "" {
      TrimLeftAppend(r, u[|r|..], IsSpace);
    } else {
      TrimRightDrops(u, p);
      TrimLeftEmptyIff(r, IsSpace);
      TrimLeftEmptyIff(u, IsSpace);
      assert forall c :: c in u ==> c in r || c in u[|r|..];
    }
  }

  lemma VisibleOfJoin(parts: seq<string>, sep: char)
    requires parts != [] && TrimSpace(parts[0]) != ""
    ensures FirstVisible(Join(parts, sep)) == FirstVisible(parts[0])
  {
    if |parts| > 1 {
      VisibleAppend(parts[0], [sep] + Join(parts[1..], sep));
      assert parts[0] + ([sep] + Join(parts[1..], sep)) == Join(parts, sep);
    }
  }

  /** The list read back from a text joins to the text without its outer separators. */
  lemma VisibleOfFields(text: string)
    requires text != ""
    ensures FirstVisible(Join(Fields(text, '\n'), '\n')) == FirstVisible(text)
  {
    var isBreak := c => c == '\n';
    JoinSplit(Trim(text, isBreak), '\n');
    VisibleOfTrim(text, isBreak);
  }

  // ---------- trimmed, non-empty, first occurrences only ----------

  /** The trimmed names, without the empty ones. */
  function NonBlank(names: seq<string>): (out: seq<string>)
    ensures forall k :: k in out ==> TrimSpace(k) == k != ""
  {
    if names == [] then []
    else
      var t := TrimSpace(names[0]);
      TrimIdempotent(names[0], IsSpace);
      (if t == "" then [] else [t]) + NonBlank(names[1..])
  }

  /** The trimmed non-empty names not seen before, each at its first occurrence. */
  function Fresh(seen: set<string>, names: seq<string>): seq<string>
    decreases names
  {
    if names == [] then []
    else
      var t := TrimSpace(names[0]);
      if t == "" || t in seen then Fresh(seen, names[1..]) else [t] + Fresh(seen + {t}, names[1..])
  }

  /** The distinct trimmed non-empty names of a list. */
  function Names(names: seq<string>): set<string> {
    set k | k in names && TrimSpace(k) != "" :: TrimSpace(k)
  }

  lemma NamesAre(names: seq<string>, k: string)
    ensures k in Names(names) <==> k != "" && exists i :: 0 <= i < |names| && TrimSpace(names[i]) == k
  {
  }

  lemma NamesSplit(names: seq<string>)
    requires names != []
    ensures Names(names) == Names(names[1..]) + if TrimSpace(names[0]) == "" then {} else {TrimSpace(names[0])}
  {
    assert forall k :: k in names <==> k == names[0] || k in names[1..];
  }

  lemma NamesOfConcat(a: seq<string>, b: seq<string>)
    ensures Names(a + b) == Names(a) + Names(b)
  {
  }

  lemma {:induction false} FreshMembers(seen: set<string>, names: seq<string>)
    ensures forall k :: k in Fresh(seen, names) <==> k in Names(names) && k !in seen
    decreases names
  {
    if names != [] {
      var t := TrimSpace(names[0]);
      NamesSplit(names);
      if t == "" || t in seen {
        FreshMembers(seen, names[1..]);
      } else {
        FreshMembers(seen + {t}, names[1..]);
      }
    }
  }

  lemma {:induction false} FreshDistinct(seen: set<string>, names: seq<string>)
    ensures Distinct(Fresh(seen, names))
    decreases names
  {
    if names != [] {
      var t := TrimSpace(names[0]);
      if t == "" || t in seen {
        FreshDistinct(seen, names[1..]);
      } else {
        FreshDistinct(seen + {t}, names[1..]);
        FreshMembers(seen + {t}, names[1..]);
        assert t !in Fresh(seen + {t}, names[1..]);
      }
    }
  }

  /** Trimming first does not change which names there are. */
  lemma {:induction false} NonBlankNames(names: seq<string>)
    ensures Names(NonBlank(names)) == Names(names)
  {
    if names != [] {
      var t := TrimSpace(names[0]);
      NamesSplit(names);
      NonBlankNames(names[1..]);
      TrimIdempotent(names[0], IsSpace);
      if t != "" {
        NamesSplit(NonBlank(names));
        assert NonBlank(names)[1..] == NonBlank(names[1..]);
      } else {
        assert NonBlank(names) == NonBlank(names[1..]);
      }
    }
  }

  lemma NamesTrimmed(names: seq<string>)
    ensures forall k :: k in Names(names) ==> TrimSpace(k) == k != ""
  {
    forall k | k in names
      ensures TrimSpace(TrimSpace(k)) == TrimSpace(k)
    {
      TrimIdempotent(k, IsSpace);
    }
  }

  /** Fresh lists exactly the names not yet seen, without repetition and trimmed. */
  lemma FreshFacts(seen: set<string>, names: seq<string>)
    ensures Distinct(Fresh(seen, names))
    ensures forall k :: k in Fresh(seen, names) <==> k in Names(names) && k !in seen
    ensures forall k :: k in Fresh(seen, names) ==> TrimSpace(k) == k != ""
  {
    FreshMembers(seen, names);
    FreshDistinct(seen, names);
    NamesTrimmed(names);
  }

  lemma NamesOfFresh(seen: set<string>, names: seq<string>)
    ensures Names(Fresh(seen, names)) == Names(names) - seen
  {
    FreshFacts(seen, names);
    var list := Fresh(seen, names);
    forall k
      ensures k in Names(list) <==> k in list
    {
      NamesAre(list, k);
    }
  }
}
