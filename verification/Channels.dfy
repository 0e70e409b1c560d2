/**
 * Pub/sub channel names: what the services print, which glob pattern of the hub's
 * subscription receives it, and which branch of the hub's switch takes it.
 */
module Channels {
  import opened Uuids
  import opened Wrappers

  /** The seven kinds of channel the services publish on. */
  datatype Kind =
    | GroupLocation
    | GroupMessages
    | GroupDrawings
    | UserLocation
    | UserMembership
    | UserDirect
    | UserDrawings

  function Prefix(kind: Kind): string {
    if kind.GroupLocation? || kind.GroupMessages? || kind.GroupDrawings? then "group:" else "user:"
  }

  function Suffix(kind: Kind): string {
    match kind
    case GroupLocation => ":location"
    case UserLocation => ":location"
    case GroupMessages => ":messages"
    case GroupDrawings => ":drawings"
    case UserDrawings => ":drawings"
    case UserMembership => ":membership"
    case UserDirect => ":direct"
  }

  /** fmt.Sprintf("group:%s:location", id) and its six siblings. */
  function Name(kind: Kind, id: Uuid): string {
    Prefix(kind) + Print(id) + Suffix(kind)
  }

  // ------------------------------------------------------------ string library

  predicate HasPrefix(s: string, p: string) {
    |p| <= |s| && s[..|p|] == p
  }

  predicate HasSuffix(s: string, p: string) {
    |p| <= |s| && s[|s| - |p|..] == p
  }

  predicate Contains(s: string, p: string) {
    HasPrefix(s, p) || (s != "" && Contains(s[1..], p))
  }

  /** strings.Split: the pieces between separators, never an empty list. */
  function Split(s: string, sep: char): (parts: seq<string>)
    ensures |parts| >= 1
  {
    if s == "" then [""]
    else if s[0] == sep then [""] + Split(s[1..], sep)
    else
      var rest := Split(s[1..], sep);
      [[s[0]] + rest[0]] + rest[1..]
  }

  /** Glob matching with `*` as the only metacharacter. */
  ghost predicate Glob(pattern: string, s: string)
    decreases |pattern|
  {
    if pattern == "" then s == ""
    else if pattern[0] == '*' then exists k | 0 <= k <= |s| :: Glob(pattern[1..], s[k..])
    else s != "" && s[0] == pattern[0] && Glob(pattern[1..], s[1..])
  }

  // ------------------------------------------------------------ the hub's reading

  /** The second colon-separated piece as an identifier, NIL when there is none. */
  function ExtractID(channel: string): Uuid {
    var parts := Split(channel, ':');
    if |parts| < 3 then NIL else Parse(parts[1]).GetOr(NIL)
  }

  /** The branch of the switch in routeMessage, cases tried in the source's order. */
  function BranchOf(channel: string): Option<Kind> {
    if HasSuffix(channel, ":location") then
      if HasPrefix(channel, "group:") then Some(GroupLocation)
      else if HasPrefix(channel, "user:") then Some(UserLocation)
      else None
    else if HasPrefix(channel, "user:") && HasSuffix(channel, ":membership") then Some(UserMembership)
    else if HasSuffix(channel, ":messages") then Some(GroupMessages)
    else if Contains(channel, "user:") && HasSuffix(channel, ":direct") then Some(UserDirect)
    else if HasSuffix(channel, ":drawings") then
      if HasPrefix(channel, "group:") then Some(GroupDrawings) else Some(UserDrawings)
    else None
  }

  lemma NamesSpelled(id: Uuid)
    ensures Name(GroupLocation, id) == "group:" + Print(id) + ":location"
    ensures Name(GroupMessages, id) == "group:" + Print(id) + ":messages"
    ensures Name(GroupDrawings, id) == "group:" + Print(id) + ":drawings"
    ensures Name(UserLocation, id) == "user:" + Print(id) + ":location"
    ensures Name(UserMembership, id) == "user:" + Print(id) + ":membership"
    ensures Name(UserDirect, id) == "user:" + Print(id) + ":direct"
    ensures Name(UserDrawings, id) == "user:" + Print(id) + ":drawings"
  {
  }

  /** The pattern of the hub's subscription that is meant for a kind. */
  function Pattern(kind: Kind): string {
    Prefix(kind) + "*" + Suffix(kind)
  }

  // ------------------------------------------------------------ proofs

  lemma {:induction false} SplitNoSeparator(s: string, sep: char)
    requires sep !in s
    ensures Split(s, sep) == [s]
  {
    if s != "" {
      SplitNoSeparator(s[1..], sep);
      assert s == [s[0]] + s[1..];
    }
  }

  lemma {:induction false} SplitAtSeparator(a: string, b: string, sep: char)
    requires sep !in a
    ensures Split(a + [sep] + b, sep) == [a] + Split(b, sep)
  {
    if a == "" {
      assert a + [sep] + b == [sep] + b;
    } else {
      assert (a + [sep] + b)[1..] == a[1..] + [sep] + b;
      SplitAtSeparator(a[1..], b, sep);
      assert a == [a[0]] + a[1..];
    }
  }

  lemma PrintHasNoColon(u: Uuid)
    ensures ':' !in Print(u)
  {
    forall i | 0 <= i < TEXT_LENGTH
      ensures Print(u)[i] != ':'
    {
      PrintCharacters(u, i);
    }
  }

  lemma SplitThree(a: string, b: string, c: string, sep: char)
    requires sep !in a && sep !in b && sep !in c
    ensures Split(a + [sep] + (b + [sep] + c), sep) == [a, b, c]
  {
    SplitAtSeparator(a, b + [sep] + c, sep);
    SplitAtSeparator(b, c, sep);
    SplitNoSeparator(c, sep);
  }

  function Head(kind: Kind): string {
    if Prefix(kind) == "group:" then "group" else "user"
  }

  lemma Regroup(a: string, b: string, c: string)
    ensures (a + [':']) + b + ([':'] + c) == a + [':'] + (b + [':'] + c)
  {
  }

  lemma NamePieces(kind: Kind, id: Uuid)
    ensures Name(kind, id) == Head(kind) + [':'] + (Print(id) + [':'] + Suffix(kind)[1..])
  {
    assert Prefix(kind) == Head(kind) + [':'];
    assert Suffix(kind) == [':'] + Suffix(kind)[1..];
    Regroup(Head(kind), Print(id), Suffix(kind)[1..]);
  }

  /** The hub reads back the identifier that was printed. */
  lemma ExtractName(kind: Kind, id: Uuid)
    ensures ExtractID(Name(kind, id)) == id
  {
    var tail := Suffix(kind)[1..];
    var text := Print(id);
    NamePieces(kind, id);
    assert ':' !in text by { PrintHasNoColon(id); }
    assert ':' !in Head(kind);
    assert ':' !in tail;
    SplitThree(Head(kind), text, tail, ':');
    ParsePrint(id);
  }

  lemma NameEnds(kind: Kind, id: Uuid)
    ensures HasPrefix(Name(kind, id), Prefix(kind))
    ensures HasSuffix(Name(kind, id), Suffix(kind))
  {
  }

  /** Two suffixes of one string agree letter by letter, counted from the end. */
  lemma SuffixesAgree(s: string, a: string, b: string, k: nat)
    requires HasSuffix(s, a) && HasSuffix(s, b) && k < |a| && k < |b|
    ensures a[|a| - 1 - k] == b[|b| - 1 - k]
  {
    assert a[|a| - 1 - k] == s[|s| - 1 - k];
    assert b[|b| - 1 - k] == s[|s| - 1 - k];
  }

  lemma SuffixDetermines(kind: Kind, other: Kind, id: Uuid)
    requires HasSuffix(Name(kind, id), Suffix(other))
    ensures Suffix(kind) == Suffix(other)
  {
    NameEnds(kind, id);
    SuffixesAgree(Name(kind, id), Suffix(kind), Suffix(other), 0);
    SuffixesAgree(Name(kind, id), Suffix(kind), Suffix(other), 1);
  }

  lemma PrefixDetermines(kind: Kind, other: Kind, id: Uuid)
    requires HasPrefix(Name(kind, id), Prefix(other))
    ensures Prefix(kind) == Prefix(other)
  {
    NameEnds(kind, id);
    assert Name(kind, id)[0] == Prefix(kind)[0];
    assert Name(kind, id)[0] == Prefix(other)[0];
  }

  /** Every published name takes the branch meant for it and gives back its identifier. */
  lemma RouteName(kind: Kind, id: Uuid)
    ensures BranchOf(Name(kind, id)) == Some(kind)
    ensures ExtractID(Name(kind, id)) == id
  {
    var name := Name(kind, id);
    ExtractName(kind, id);
    NameEnds(kind, id);
    forall other: Kind
      ensures HasSuffix(name, Suffix(other)) ==> Suffix(kind) == Suffix(other)
      ensures HasPrefix(name, Prefix(other)) ==> Prefix(kind) == Prefix(other)
    {
      if HasSuffix(name, Suffix(other)) { SuffixDetermines(kind, other, id); }
      if HasPrefix(name, Prefix(other)) { PrefixDetermines(kind, other, id); }
    }
    assert HasSuffix(name, ":location") == HasSuffix(name, Suffix(GroupLocation));
    assert HasSuffix(name, ":membership") == HasSuffix(name, Suffix(UserMembership));
    assert HasSuffix(name, ":messages") == HasSuffix(name, Suffix(GroupMessages));
    assert HasSuffix(name, ":direct") == HasSuffix(name, Suffix(UserDirect));
    assert HasSuffix(name, ":drawings") == HasSuffix(name, Suffix(UserDrawings));
    assert HasPrefix(name, "group:") == HasPrefix(name, Prefix(GroupLocation));
    assert HasPrefix(name, "user:") == HasPrefix(name, Prefix(UserLocation));
  }

  /** No two publications share a name unless they share kind and identifier. */
  lemma NamesDistinct(k1: Kind, id1: Uuid, k2: Kind, id2: Uuid)
    requires Name(k1, id1) == Name(k2, id2)
    ensures k1 == k2 && id1 == id2
  {
    RouteName(k1, id1);
    RouteName(k2, id2);
  }

  lemma {:induction false} GlobLiteral(p: string, s: string)
    requires '*' !in p
    ensures Glob(p, s) <==> s == p
  {
    if p != "" {
      if s != "" {
        GlobLiteral(p[1..], s[1..]);
        assert s == [s[0]] + s[1..];
        assert p == [p[0]] + p[1..];
      }
    }
  }

  lemma GlobStarLiteral(suf: string, s: string)
    requires '*' !in suf
    ensures Glob("*" + suf, s) <==> HasSuffix(s, suf)
  {
    assert ("*" + suf)[1..] == suf;
    forall k | 0 <= k <= |s|
      ensures Glob(suf, s[k..]) <==> s[k..] == suf
    {
      GlobLiteral(suf, s[k..]);
    }
    if HasSuffix(s, suf) {
      assert Glob(suf, s[|s| - |suf|..]);
    }
  }

  lemma {:induction false} GlobPrefixStar(pre: string, suf: string, s: string)
    requires '*' !in pre && '*' !in suf
    ensures Glob(pre + "*" + suf, s) <==> HasPrefix(s, pre) && HasSuffix(s[|pre|..], suf)
    decreases pre
  {
    if pre == "" {
      assert pre + "*" + suf == "*" + suf;
      GlobStarLiteral(suf, s);
      assert s[0..] == s;
    } else {
      assert (pre + "*" + suf)[1..] == pre[1..] + "*" + suf;
      if s != "" {
        GlobPrefixStar(pre[1..], suf, s[1..]);
        if |pre| <= |s| {
          assert s[1..][|pre[1..]|..] == s[|pre|..];
          assert s[..|pre|] == [s[0]] + s[1..][..|pre| - 1];
          assert pre == [pre[0]] + pre[1..];
        }
      }
    }
  }

  /**
   * A published name matches its own subscription pattern and none of the other six, so the
   * hub receives each publication exactly once.
   */
  lemma ReceivedOnce(kind: Kind, id: Uuid, other: Kind)
    ensures Glob(Pattern(other), Name(kind, id)) <==> other == kind
  {
    var name := Name(kind, id);
    NameEnds(kind, id);
    GlobPrefixStar(Prefix(other), Suffix(other), name);
    if Glob(Pattern(other), name) {
      PrefixDetermines(kind, other, id);
      assert HasSuffix(name, Suffix(other)) by {
        assert name[|Prefix(other)|..][|name| - |Prefix(other)| - |Suffix(other)|..] == name[|name| - |Suffix(other)|..];
      }
      SuffixDetermines(kind, other, id);
    }
    if other == kind {
      assert name[|Prefix(kind)|..] == Print(id) + Suffix(kind);
    }
  }
}
