/**
 Names on disk in `agent_sys/handoff/store.py`: labels, handoff directories and
 version directories.
 */
module StoreNames {
  import opened Options
  import opened Text
  import opened TreeDigest

  // ---- labels ----

  const SLUG_CHARS: nat := 40

  /** ASCII letters, digits and `_`. */
  predicate InWord(c: char) { 'a' <= c <= 'z' || 'A' <= c <= 'Z' || '0' <= c <= '9' || c == '_' }

  predicate IsSafe(c: char) { InWord(c) || c == '-' }

  /** The characters kept, with every run of others (and of `-`) a single `-`, none in front. */
  function Squeeze(s: string): (r: string)
  {
    if s == "" then "" else Kept(Squeeze(s[..|s| - 1]), s[|s| - 1])
  }

  /** One turn of the loop. */
  function Kept(out: string, c: char): (r: string)
  {
    var keep := if IsSafe(c) then c else '-';
    if keep == '-' && (out == "" || out[|out| - 1] == '-') then out else out + [keep]
  }

  function DropFront(s: string): (r: string) { if s != "" && s[0] == '-' then DropFront(s[1..]) else s }

  function DropBack(s: string): (r: string) { if s != "" && s[|s| - 1] == '-' then DropBack(s[..|s| - 1]) else s }

  /** `s.strip("-")` */
  function StripDashes(s: string): (r: string) { DropBack(DropFront(s)) }

  function Cap(s: string): (r: string) { if |s| <= SLUG_CHARS then s else s[..SLUG_CHARS] }

  function SlugOf(s: string): (r: string) { StripDashes(Cap(StripDashes(Squeeze(s)))) }

  /** A directory-name-safe label: what a slug is, and what a slug leaves alone. */
  predicate IsLabel(s: string)
  {
    && |s| <= SLUG_CHARS
    && Tidy(s)
    && (s != "" ==> s[|s| - 1] != '-')
  }

  predicate Tidy(s: string)
  {
    && (forall c | c in s :: IsSafe(c))
    && (s != "" ==> s[0] != '-')
    && (forall i | 0 <= i < |s| - 1 :: !(s[i] == '-' && s[i + 1] == '-'))
  }

  lemma {:induction false} SqueezeTidy(s: string)
    ensures Tidy(Squeeze(s))
  {
    if s != "" { SqueezeTidy(s[..|s| - 1]); }
  }

  lemma TidyEnd(s: string)
    requires Tidy(s) && s != ""
    ensures Tidy(s[..|s| - 1]) && Kept(s[..|s| - 1], s[|s| - 1]) == s[..|s| - 1] + [s[|s| - 1]]
  {
    assert s[|s| - 1] in s;
    if |s| > 1 { assert !(s[|s| - 2] == '-' && s[|s| - 2 + 1] == '-'); }
  }

  lemma {:induction false} SqueezeKeeps(s: string)
    requires Tidy(s)
    ensures Squeeze(s) == s
  {
    if s != "" {
      var pre, c := s[..|s| - 1], s[|s| - 1];
      TidyEnd(s);
      SqueezeKeeps(pre);
      assert s == pre + [c];
    }
  }

  lemma {:induction false} DropBackTidy(s: string)
    requires Tidy(s)
    ensures Tidy(DropBack(s)) && |DropBack(s)| <= |s|
    ensures DropBack(s) != "" ==> DropBack(s)[|DropBack(s)| - 1] != '-'
  {
    if s != "" && s[|s| - 1] == '-' { DropBackTidy(s[..|s| - 1]); }
  }

  lemma TidyStrips(s: string)
    requires Tidy(s)
    ensures StripDashes(s) == DropBack(s) && Tidy(Cap(s))
  {
  }

  lemma SlugTidy(s: string)
    ensures IsLabel(SlugOf(s))
  {
    SqueezeTidy(s);
    TidyStrips(Squeeze(s));
    DropBackTidy(Squeeze(s));
    var a := DropBack(Squeeze(s));
    TidyStrips(a);
    TidyStrips(Cap(a));
    DropBackTidy(Cap(a));
  }

  /** A slug is a label, so it holds no `.`; and a label is its own slug. */
  lemma SlugIsLabel(s: string)
    ensures IsLabel(SlugOf(s)) && '.' !in SlugOf(s)
    ensures IsLabel(s) ==> SlugOf(s) == s
    ensures SlugOf(SlugOf(s)) == SlugOf(s)
  {
    SlugTidy(s);
    LabelKept(SlugOf(s));
    if IsLabel(s) { LabelKept(s); }
  }

  lemma LabelKept(s: string)
    requires IsLabel(s)
    ensures SlugOf(s) == s
  {
    SqueezeKeeps(s);
    assert StripDashes(s) == s && Cap(s) == s;
  }

  // ---- a slug, word by word ----

  /** A word, and the characters of other kinds before it. */
  datatype Piece = Piece(gap: string, word: string)

  predicate AllWord(s: string) { forall i | 0 <= i < |s| :: InWord(s[i]) }

  predicate AllGap(s: string) { forall i | 0 <= i < |s| :: !InWord(s[i]) }

  /** Words are not empty, and nor are the gaps between two of them. */
  predicate Proper(ps: seq<Piece>)
  {
    && (forall i | 0 <= i < |ps| :: ps[i].word != "" && AllWord(ps[i].word) && AllGap(ps[i].gap))
    && (forall i | 0 < i < |ps| :: ps[i].gap != "")
  }

  function Spelled(ps: seq<Piece>): (s: string)
  {
    if ps == [] then "" else Spelled(ps[..|ps| - 1]) + (ps[|ps| - 1].gap + ps[|ps| - 1].word)
  }

  /** The words, with one `-` between each two. */
  function Hyphened(ps: seq<Piece>): (s: string)
  {
    if ps == [] then "" else
      (if |ps| == 1 then "" else Hyphened(ps[..|ps| - 1]) + "-") + ps[|ps| - 1].word
  }

  lemma SqueezeThen(t: string, c: char)
    ensures Squeeze(t + [c]) == Kept(Squeeze(t), c)
  {
    assert (t + [c])[..|t|] == t;
  }

  lemma KeptWord(out: string, c: char)
    requires InWord(c)
    ensures Kept(out, c) == out + [c]
  {
  }

  /** The loop, going on from `out`. */
  function Feed(out: string, w: string): (r: string)
  {
    if w == "" then out else Kept(Feed(out, w[..|w| - 1]), w[|w| - 1])
  }

  lemma {:induction false} SqueezeFeeds(t: string, w: string)
    ensures Squeeze(t + w) == Feed(Squeeze(t), w)
  {
    if w == "" { assert t + w == t; }
    else {
      var pre, c := w[..|w| - 1], w[|w| - 1];
      SqueezeFeeds(t, pre);
      assert t + w == (t + pre) + [c];
      SqueezeThen(t + pre, c);
    }
  }

  lemma {:induction false} FeedWord(out: string, w: string)
    requires AllWord(w)
    ensures Feed(out, w) == out + w
  {
    if w == "" { assert out + w == out; }
    else {
      var pre, c := w[..|w| - 1], w[|w| - 1];
      FeedWord(out, pre);
      KeptWord(out + pre, c);
      assert (out + pre) + [c] == out + w;
    }
  }

  lemma SqueezeWord(t: string, w: string)
    requires AllWord(w)
    ensures Squeeze(t + w) == Squeeze(t) + w
  {
    SqueezeFeeds(t, w);
    FeedWord(Squeeze(t), w);
  }

  lemma {:induction false} SqueezeGap(t: string, g: string)
    requires AllGap(g) && g != ""
    ensures Squeeze(t + g) == Kept(Squeeze(t), '-')
  {
    var pre, c := g[..|g| - 1], g[|g| - 1];
    assert t + g == (t + pre) + [c];
    SqueezeThen(t + pre, c);
    if pre == "" { assert t + pre == t; } else { SqueezeGap(t, pre); }
  }

  lemma {:induction false} SqueezeSpelled(ps: seq<Piece>)
    requires Proper(ps)
    ensures Squeeze(Spelled(ps)) == Hyphened(ps)
    ensures ps != [] ==> EndsInWords(Hyphened(ps))
  {
    if ps != [] {
      var pre, p := ps[..|ps| - 1], ps[|ps| - 1];
      SqueezeSpelled(pre);
      var t := Spelled(pre);
      assert t + (p.gap + p.word) == (t + p.gap) + p.word;
      SqueezeWord(t + p.gap, p.word);
      if p.gap == "" { assert t + p.gap == t; } else { SqueezeGap(t, p.gap); }
    }
  }

  predicate EndsInWords(h: string) { h != "" && InWord(h[0]) && InWord(h[|h| - 1]) }

  lemma Longer(ps: seq<Piece>, c: char) returns (more: seq<Piece>)
    requires Proper(ps) && ps != [] && InWord(c)
    ensures Proper(more) && Spelled(more) == Spelled(ps) + [c]
  {
    var pre, p := ps[..|ps| - 1], ps[|ps| - 1];
    more := pre + [Piece(p.gap, p.word + [c])];
    assert more[..|more| - 1] == pre;
    assert p.gap + (p.word + [c]) == (p.gap + p.word) + [c];
    assert Spelled(pre) + ((p.gap + p.word) + [c]) == (Spelled(pre) + (p.gap + p.word)) + [c];
  }

  lemma OneMore(ps: seq<Piece>, gap: string, c: char) returns (more: seq<Piece>)
    requires Proper(ps) && AllGap(gap) && (ps == [] || gap != "") && InWord(c)
    ensures Proper(more) && Spelled(more) == Spelled(ps) + (gap + [c])
  {
    more := ps + [Piece(gap, [c])];
    assert more[..|more| - 1] == ps;
  }

  /** Every text is words and gaps. */
  lemma {:induction false} Spell(s: string) returns (ps: seq<Piece>, tail: string)
    ensures Proper(ps) && AllGap(tail) && s == Spelled(ps) + tail
  {
    if s == "" { ps, tail := [], ""; }
    else {
      var pre, c := s[..|s| - 1], s[|s| - 1];
      ps, tail := Spell(pre);
      assert s == pre + [c];
      var said, gap := Spelled(ps), tail;
      assert (said + gap) + [c] == said + (gap + [c]);
      if !InWord(c) { tail := gap + [c]; }
      else if gap == "" && ps != [] {
        ps := Longer(ps, c);
        assert said + [c] + "" == said + (gap + [c]);
      } else {
        ps := OneMore(ps, gap, c);
        tail := "";
      }
    }
  }

  lemma StripHyphened(h: string)
    requires h == "" || EndsInWords(h)
    ensures StripDashes(h) == h && StripDashes(h + "-") == h
  {
    if h == "" { assert "-"[1..] == ""; }
    else { assert (h + "-")[0] == h[0] && (h + "-")[..|h|] == h; }
  }

  lemma CapStrips(h: string)
    requires h == "" || EndsInWords(h)
    ensures StripDashes(Cap(h)) == DropBack(Cap(h))
  {
  }

  /** A slug is the text's words joined by single hyphens, cut at 40 characters and not left
      ending in a hyphen. */
  lemma SlugIsWords(s: string) returns (ps: seq<Piece>, tail: string)
    ensures Proper(ps) && AllGap(tail) && s == Spelled(ps) + tail
    ensures SlugOf(s) == DropBack(Cap(Hyphened(ps)))
  {
    ps, tail := Spell(s);
    var h := Hyphened(ps);
    SqueezeSpelled(ps);
    if tail == "" { assert s == Spelled(ps); } else { SqueezeGap(Spelled(ps), tail); }
    StripHyphened(h);
    CapStrips(h);
  }

  /** The loop of `slug`. */
  method Slug(text: string) returns (r: string)
    ensures r == SlugOf(text)
  {
    var out := "";
    for i := 0 to |text|
      invariant out == Squeeze(text[..i])
    {
      assert text[..i + 1][..i] == text[..i];
      var keep := if IsSafe(text[i]) then text[i] else '-';
      if keep == '-' && (out == "" || out[|out| - 1] == '-') { continue; }
      out := out + [keep];
    }
    assert text[..|text|] == text;
    r := StripDashes(Cap(StripDashes(out)));
  }

  // ---- handoff directories ----

  const PREFIX := "handoff"

  /** `handoff_dirname`; no kind is the empty string. */
  function DirName(hid: string, kind: string): (n: string)
  {
    var tag := SlugOf(kind);
    if tag != "" then PREFIX + "." + tag + "." + hid else PREFIX + "." + hid
  }

  predicate IsDot(c: char) { c == '.' }

  /** The fields of a directory's name, for an id without dots. */
  lemma DirNameFields(hid: string, kind: string)
    requires '.' !in hid
    ensures Split(IsDot, DirName(hid, kind)) ==
      if SlugOf(kind) == "" then ["handoff", hid] else ["handoff", SlugOf(kind), hid]
  {
    SlugIsLabel(kind);
    if SlugOf(kind) == "" { TwoFields("handoff", hid); } else { ThreeFields("handoff", SlugOf(kind), hid); }
  }

  lemma TwoFields(a: string, b: string)
    requires '.' !in a && '.' !in b
    ensures Split(IsDot, a + "." + b) == [a, b]
  {
    SplitWhole(IsDot, a);
    SplitWhole(IsDot, b);
    SplitAt(IsDot, a, '.', b);
  }

  lemma ThreeFields(a: string, b: string, c: string)
    requires '.' !in a && '.' !in b && '.' !in c
    ensures Split(IsDot, a + "." + b + "." + c) == [a, b, c]
  {
    TwoFields(a, b);
    SplitWhole(IsDot, c);
    SplitAt(IsDot, a + "." + b, '.', c);
  }

  /** How `handoff_dir` recognises a directory as this handoff's. */
  predicate IsOf(name: string, hid: string)
  {
    name == hid || EndsWith(name, "." + hid)
  }

  predicate EndsWith(s: string, t: string) { |t| <= |s| && s[|s| - |t|..] == t }

  /** The scan over the sorted entries. */
  function FirstOf(entries: seq<string>, hid: string): (r: Option<string>)
  {
    if entries == [] then None else if IsOf(entries[0], hid) then Some(entries[0]) else FirstOf(entries[1..], hid)
  }

  /** `handoff_dir` */
  function HandoffDir(entries: seq<string>, hid: string, kind: string): (n: string)
  {
    match FirstOf(entries, hid)
    case Some(n) => n
    case None => DirName(hid, kind)
  }

  /** What follows the last `.`, or all of it. */
  function LastField(s: string): (r: string)
    ensures |r| <= |s| && s[|s| - |r|..] == r && '.' !in r
    ensures |r| < |s| ==> s[|s| - |r| - 1] == '.'
  {
    if s == "" || s[|s| - 1] == '.' then "" else LastField(s[..|s| - 1]) + [s[|s| - 1]]
  }

  lemma DotsComeBefore(s: string, k: nat, m: nat)
    requires k <= |s| && m <= |s| && '.' !in s[k..] && (m > 0 ==> s[m - 1] == '.')
    ensures m <= k
  {
    assert forall i | k <= i < |s| :: s[i] in s[k..];
  }

  /** The last field is unique: a dot-free end with a `.`, or nothing, before it. */
  lemma LastFieldIs(s: string, front: string, hid: string)
    requires '.' !in hid && s == front + hid && (front != "" ==> front[|front| - 1] == '.')
    ensures LastField(s) == hid
  {
    var k := |s| - |LastField(s)|;
    assert s[|front|..] == hid;
    DotsComeBefore(s, k, |front|);
    DotsComeBefore(s, |front|, k);
  }

  lemma SuffixIsLastField(name: string, hid: string)
    requires '.' !in hid && EndsWith(name, "." + hid)
    ensures LastField(name) == hid
  {
    var k := |name| - |hid|;
    var tail := name[k - 1..];
    assert tail == "." + hid;
    assert tail[0] == name[k - 1] && tail[1..] == name[k..];
    LastFieldIs(name, name[..k], hid);
  }

  lemma LastFieldIsSuffix(name: string, hid: string)
    requires LastField(name) == hid && name != hid
    ensures EndsWith(name, "." + hid)
  {
    var k := |name| - |hid|;
    assert name[0..] == name;
    assert name[k - 1..] == [name[k - 1]] + name[k..];
  }

  /** Being some dot-free id's directory is having that id for the last field. */
  lemma IsOfLastField(name: string, hid: string)
    requires '.' !in hid
    ensures IsOf(name, hid) <==> LastField(name) == hid
  {
    if name == hid { LastFieldIs(name, "", hid); }
    else if EndsWith(name, "." + hid) { SuffixIsLastField(name, hid); }
    else if LastField(name) == hid { LastFieldIsSuffix(name, hid); }
  }

  /** Ids hold no `.` (they are UUIDs) and labels neither, so a directory belongs to exactly
      the handoff it was named for, under every label, old bare names included. */
  lemma DirectoryHasOneHandoff(mine: string, kind: string, hid: string)
    requires '.' !in mine && '.' !in hid
    ensures IsOf(DirName(mine, kind), hid) <==> mine == hid
    ensures IsOf(mine, hid) <==> mine == hid
  {
    var front := if SlugOf(kind) != "" then PREFIX + "." + SlugOf(kind) else PREFIX;
    assert DirName(mine, kind) == front + "." + mine;
    LastFieldIs(DirName(mine, kind), front + ".", mine);
    LastFieldIs(mine, "", mine);
    IsOfLastField(DirName(mine, kind), hid);
    IsOfLastField(mine, hid);
  }

  lemma {:induction false} FirstOfFinds(entries: seq<string>, hid: string)
    ensures FirstOf(entries, hid).Some? <==> exists e :: e in entries && IsOf(e, hid)
    ensures FirstOf(entries, hid).Some? ==>
      FirstOf(entries, hid).value in entries && IsOf(FirstOf(entries, hid).value, hid)
  {
    if entries != [] && !IsOf(entries[0], hid) { FirstOfFinds(entries[1..], hid); }
  }

  /** `handoff_dir` gives the first entry of the handoff, and a new name exactly when it has none. */
  lemma {:induction false} HandoffDirExactly(entries: seq<string>, hid: string, kind: string) returns (i: nat)
    ensures i <= |entries| && forall j | 0 <= j < i :: !IsOf(entries[j], hid)
    ensures i < |entries| ==> IsOf(entries[i], hid)
    ensures HandoffDir(entries, hid, kind) == if i < |entries| then entries[i] else DirName(hid, kind)
  {
    if entries == [] || IsOf(entries[0], hid) { i := 0; }
    else {
      var k := HandoffDirExactly(entries[1..], hid, kind);
      i := k + 1;
      assert forall j | 1 <= j < |entries| :: entries[j] == entries[1..][j - 1];
    }
  }

  /** No two directories belong to one handoff. */
  ghost predicate OneEach(entries: seq<string>)
  {
    forall i, j | 0 <= i < j < |entries| :: LastField(entries[i]) != LastField(entries[j])
  }

  /** Requests (id, kind) served in turn: each resolves its directory and creates it if absent. */
  function Served(entries: seq<string>, asks: seq<(string, string)>): (r: seq<string>)
    decreases |asks|
  {
    if asks == [] then entries else
      var n := HandoffDir(entries, asks[0].0, asks[0].1);
      Served(if n in entries then entries else entries + [n], asks[1..])
  }

  /** However often a handoff is asked for and under whatever kinds, it keeps one directory,
      and nothing already there moves. */
  lemma {:induction false} OneDirectoryEach(entries: seq<string>, asks: seq<(string, string)>)
    requires OneEach(entries) && forall a | a in asks :: '.' !in a.0
    ensures OneEach(Served(entries, asks)) && entries <= Served(entries, asks)
    ensures forall a | a in asks :: FirstOf(Served(entries, asks), a.0).Some?
    decreases |asks|
  {
    if asks != [] {
      var (hid, kind) := asks[0];
      assert asks[0] in asks;
      var n := HandoffDir(entries, hid, kind);
      var next := if n in entries then entries else entries + [n];
      FirstOfFinds(entries, hid);
      DirectoryHasOneHandoff(hid, kind, hid);
      IsOfLastField(n, hid);
      forall e | e in entries ensures LastField(e) == hid ==> n in entries { IsOfLastField(e, hid); }
      OneDirectoryEach(next, asks[1..]);
      FirstOfFinds(Served(entries, asks), hid);
      assert n in next;
    }
  }

  /** A later lookup finds the directory made earlier, whatever kind it asks under and
      in whatever order the store's entries are scanned. */
  lemma LookupIgnoresLabel(entries: seq<string>, hid: string, made: string, asked: string)
    requires OneEach(entries) && '.' !in hid && DirName(hid, made) in entries
    ensures HandoffDir(entries, hid, asked) == DirName(hid, made)
  {
    DirectoryHasOneHandoff(hid, made, hid);
    FirstOfFinds(entries, hid);
    var found := FirstOf(entries, hid).value;
    IsOfLastField(found, hid);
    IsOfLastField(DirName(hid, made), hid);
  }

  // ---- version directories ----

  const STAGING: Bytes := [46, 115, 116, 97, 103, 105, 110, 103, 45, 118]  // b".staging-v"

  function VersionName(n: nat): (b: Bytes) { [118] + Decimal(n) }

  function StageName(n: nat): (b: Bytes) { STAGING + Decimal(n) }

  /** The filter of `_version_dirs` and `_next_guess`: `v` and digits. */
  function VersionOf(name: Bytes): (r: Option<nat>)
  {
    if |name| >= 2 && name[0] == 118 && AllDigits(name[1..]) then Some(Number(name[1..])) else None
  }

  /** The lister recovers every version's number and sees no staging directory. */
  lemma ListerReadsNames(n: nat)
    ensures VersionOf(VersionName(n)) == Some(n)
    ensures VersionOf(StageName(n)) == None
  {
    NumberOfDecimal(n);
    assert VersionName(n)[1..] == Decimal(n);
    assert StageName(n)[0] == 46;
  }
}
