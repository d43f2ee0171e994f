/**
 The append-only registry of started servers in `agent_sys/env_mgr/servers.py`.
 A crash may cut an append short anywhere; the reader must still find every
 record that reached the file whole, and nothing else.
 */
module ServerLog {
  import opened Options
  import opened Text

  /** A character `str.splitlines` breaks at. */
  predicate IsBreak(c: char)
  {
    var x := c as int;
    0x0a <= x <= 0x0d || 0x1c <= x <= 0x1e || x == 0x85 || x == 0x2028 || x == 0x2029
  }

  /** A character `str.strip` removes. */
  predicate IsSpace(c: char)
  {
    var x := c as int;
    || IsBreak(c)
    || x == 0x09 || x == 0x1f || x == 0x20 || x == 0xa0 || x == 0x1680
    || 0x2000 <= x <= 0x200a || x == 0x202f || x == 0x205f || x == 0x3000
  }

  function DropSpaces(s: string): (r: string)
  {
    if s != "" && IsSpace(s[0]) then DropSpaces(s[1..]) else s
  }

  function Trim(s: string): (r: string)
    ensures |r| <= |s| && r == s[..|r|]
    ensures r == s || IsSpace(s[|r|])
    ensures r == "" || !IsSpace(r[|r| - 1])
  {
    if s != "" && IsSpace(s[|s| - 1]) then Trim(s[..|s| - 1]) else s
  }

  function Strip(s: string): (r: string) { Trim(DropSpaces(s)) }

  /** `splitlines`, up to blank lines, which the reader skips. */
  function Lines(s: string): (r: seq<string>) { Split(IsBreak, s) }

  function Read<R>(dec: string -> Option<R>, line: string): (r: seq<R>)
  {
    var text := Strip(line);
    if text == "" then [] else match dec(text) case None => [] case Some(x) => [x]
  }

  function Reader<R>(dec: string -> Option<R>): (f: string -> seq<R>) { line => Read(dec, line) }

  function ReadAll<R>(read: string -> seq<R>, lines: seq<string>): (r: seq<R>)
  {
    if lines == [] then [] else read(lines[0]) + ReadAll(read, lines[1..])
  }

  function RecordsIn<R>(dec: string -> Option<R>, file: string): (r: seq<R>) { ReadAll(Reader(dec), Lines(file)) }

  // ---- the writer ----

  predicate EndsMidLine(file: string) { file != "" && file[|file| - 1] != '\n' }

  /** What `record_spawn` hands to `write`. */
  function Payload(file: string, text: string): (s: string)
  {
    (if EndsMidLine(file) then "\n" else "") + text + "\n"
  }

  /** The file after `landed` characters of the write reached it. */
  function Append(file: string, text: string, landed: nat): (f: string)
  {
    var p := Payload(file, text);
    file + (if landed <= |p| then p[..landed] else p)
  }

  /** Did the whole encoding land?  Its newline may still be missing. */
  predicate Whole(file: string, text: string, landed: nat)
  {
    landed + 1 >= |Payload(file, text)|
  }

  /** What is asked of the encoding: one line with no blanks at its ends, a decoder that
      inverts it and rejects every proper prefix of it. */
  ghost predicate Codec<R(!new)>(enc: R -> string, dec: string -> Option<R>)
  {
    forall r ::
      && enc(r) != "" && !IsSpace(enc(r)[0]) && !IsSpace(enc(r)[|enc(r)| - 1])
      && (forall c | c in enc(r) :: !IsBreak(c))
      && dec(enc(r)) == Some(r)
      && (forall k | 0 < k < |enc(r)| :: dec(enc(r)[..k]) == None)
  }

  // ---- lines ----

  lemma {:induction false} ReadAllSplit<R>(read: string -> seq<R>, a: seq<string>, b: seq<string>)
    ensures ReadAll(read, a + b) == ReadAll(read, a) + ReadAll(read, b)
  {
    if a == [] { assert a + b == b; }
    else {
      var rest := ReadAll(read, a[1..]);
      ReadAllSplit(read, a[1..], b);
      assert (a + b)[0] == a[0] && (a + b)[1..] == a[1..] + b;
      assert ReadAll(read, a + b) == read(a[0]) + (rest + ReadAll(read, b));
      assert ReadAll(read, a) == read(a[0]) + rest;
    }
  }

  lemma ReadAllThen<R>(read: string -> seq<R>, lines: seq<string>, i: nat)
    requires i < |lines|
    ensures ReadAll(read, lines[..i + 1]) == ReadAll(read, lines[..i]) + read(lines[i])
  {
    assert lines[..i + 1] == lines[..i] + [lines[i]];
    ReadAllSplit(read, lines[..i], [lines[i]]);
    assert ReadAll(read, [lines[i]]) == read(lines[i]) + ReadAll(read, []);
  }

  lemma RecordsSplit<R>(dec: string -> Option<R>, a: string, b: string)
    ensures RecordsIn(dec, a + "\n" + b) == RecordsIn(dec, a) + RecordsIn(dec, b)
  {
    SplitAt(IsBreak, a, '\n', b);
    ReadAllSplit(Reader(dec), Lines(a), Lines(b));
  }

  lemma NothingInEmpty<R>(dec: string -> Option<R>)
    ensures RecordsIn(dec, "") == []
  {
    assert Lines("") == [""];
    assert ReadAll(Reader(dec), [""]) == Reader(dec)("") + ReadAll(Reader(dec), []);
  }

  /** Text added after a finished line is read on its own. */
  lemma RecordsAfterLine<R>(dec: string -> Option<R>, file: string, more: string)
    requires !EndsMidLine(file)
    ensures RecordsIn(dec, file + more) == RecordsIn(dec, file) + RecordsIn(dec, more)
  {
    NothingInEmpty(dec);
    if file == "" {
      assert file + more == more;
    } else {
      var body := file[..|file| - 1];
      assert file == body + "\n" + "" && file + more == body + "\n" + more;
      RecordsSplit(dec, body, "");
      RecordsSplit(dec, body, more);
    }
  }

  // ---- one write ----

  lemma OneLine<R>(dec: string -> Option<R>, s: string)
    requires forall c | c in s :: !IsBreak(c)
    ensures RecordsIn(dec, s) == Read(dec, s)
  {
    SplitWhole(IsBreak, s);
    assert ReadAll(Reader(dec), [s]) == Reader(dec)(s) + ReadAll(Reader(dec), []);
  }

  lemma TornIsNothing<R(!new)>(enc: R -> string, dec: string -> Option<R>, r: R, k: nat)
    requires Codec(enc, dec) && k < |enc(r)|
    ensures RecordsIn(dec, enc(r)[..k]) == []
  {
    var torn := enc(r)[..k];
    if k == 0 { NothingInEmpty(dec); assert torn == ""; }
    else {
      OneLine(dec, torn);
      assert torn[0] == enc(r)[0];
      assert DropSpaces(torn) == torn;
      var t := Trim(torn);
      assert t == torn || IsSpace(torn[|t|]);
      assert t == enc(r)[..|t|];
    }
  }

  lemma WholeIsRead<R(!new)>(enc: R -> string, dec: string -> Option<R>, r: R)
    requires Codec(enc, dec)
    ensures RecordsIn(dec, enc(r)) == [r] && RecordsIn(dec, enc(r) + "\n") == [r]
  {
    OneLine(dec, enc(r));
    assert DropSpaces(enc(r)) == enc(r);
    assert Trim(enc(r)) == enc(r);
    assert enc(r) + "\n" == enc(r) + "\n" + "";
    RecordsSplit(dec, enc(r), "");
    NothingInEmpty(dec);
  }

  /** One append, cut short anywhere: the records already there stay, and this one is added
      exactly when its encoding landed whole. */
  lemma AppendReads<R(!new)>(enc: R -> string, dec: string -> Option<R>, file: string, r: R, landed: nat)
    requires Codec(enc, dec)
    ensures RecordsIn(dec, Append(file, enc(r), landed)) ==
      RecordsIn(dec, file) + (if Whole(file, enc(r), landed) then [r] else [])
  {
    var p := Payload(file, enc(r));
    var cut := if landed <= |p| then landed else |p|;
    if EndsMidLine(file) { AppendToTorn(enc, dec, file, r, cut); } else { AppendToLine(enc, dec, file, r, cut); }
    assert landed >= |p| ==> p[..cut] == p;
  }

  lemma AppendToTorn<R(!new)>(enc: R -> string, dec: string -> Option<R>, file: string, r: R, cut: nat)
    requires Codec(enc, dec) && EndsMidLine(file) && cut <= |enc(r)| + 2
    ensures RecordsIn(dec, file + Payload(file, enc(r))[..cut]) ==
      RecordsIn(dec, file) + (if cut <= |enc(r)| then [] else [r])
  {
    var p := Payload(file, enc(r));
    if cut == 0 { assert file + p[..0] == file; }
    else {
      var tail := (enc(r) + "\n")[..cut - 1];
      assert file + p[..cut] == file + "\n" + tail;
      RecordsSplit(dec, file, tail);
      TailReads(enc, dec, r, cut - 1);
    }
  }

  lemma AppendToLine<R(!new)>(enc: R -> string, dec: string -> Option<R>, file: string, r: R, cut: nat)
    requires Codec(enc, dec) && !EndsMidLine(file) && cut <= |enc(r)| + 1
    ensures RecordsIn(dec, file + Payload(file, enc(r))[..cut]) ==
      RecordsIn(dec, file) + (if cut < |enc(r)| then [] else [r])
  {
    assert Payload(file, enc(r)) == enc(r) + "\n";
    RecordsAfterLine(dec, file, (enc(r) + "\n")[..cut]);
    TailReads(enc, dec, r, cut);
  }

  lemma TailReads<R(!new)>(enc: R -> string, dec: string -> Option<R>, r: R, k: nat)
    requires Codec(enc, dec) && k <= |enc(r)| + 1
    ensures RecordsIn(dec, (enc(r) + "\n")[..k]) == if k < |enc(r)| then [] else [r]
  {
    WholeIsRead(enc, dec, r);
    if k < |enc(r)| {
      assert (enc(r) + "\n")[..k] == enc(r)[..k];
      TornIsNothing(enc, dec, r, k);
    } else if k == |enc(r)| {
      assert (enc(r) + "\n")[..k] == enc(r);
    } else {
      assert (enc(r) + "\n")[..k] == enc(r) + "\n";
    }
  }

  // ---- every history ----

  datatype Write<R> = Write(r: R, landed: nat)

  function File<R>(enc: R -> string, ws: seq<Write<R>>): (f: string)
  {
    if ws == [] then "" else
      Append(File(enc, ws[..|ws| - 1]), enc(ws[|ws| - 1].r), ws[|ws| - 1].landed)
  }

  lemma FileThen<R>(enc: R -> string, ws: seq<Write<R>>, w: Write<R>)
    ensures File(enc, ws + [w]) == Append(File(enc, ws), enc(w.r), w.landed)
  {
    assert (ws + [w])[..|ws|] == ws;
  }

  /** The records of the writes whose encoding landed whole, in order. */
  function Landed<R>(enc: R -> string, ws: seq<Write<R>>): (rs: seq<R>)
  {
    if ws == [] then [] else
      var pre, w := ws[..|ws| - 1], ws[|ws| - 1];
      Landed(enc, pre) + (if Whole(File(enc, pre), enc(w.r), w.landed) then [w.r] else [])
  }

  /** For every sequence of appends with every choice of where each was cut. */
  lemma {:induction false} ReaderFindsExactlyTheLanded<R(!new)>(enc: R -> string, dec: string -> Option<R>,
                                                                ws: seq<Write<R>>)
    requires Codec(enc, dec)
    ensures RecordsIn(dec, File(enc, ws)) == Landed(enc, ws)
  {
    if ws == [] { NothingInEmpty(dec); }
    else {
      ReaderFindsExactlyTheLanded(enc, dec, ws[..|ws| - 1]);
      AppendReads(enc, dec, File(enc, ws[..|ws| - 1]), ws[|ws| - 1].r, ws[|ws| - 1].landed);
    }
  }

  // ---- the code ----

  class Registry<R(!new)> {
    const enc: R -> string
    const dec: string -> Option<R>
    var file: string
    ghost var history: seq<Write<R>>

    ghost predicate Valid()
      reads this
    {
      Codec(enc, dec) && file == File(enc, history)
    }

    constructor (enc: R -> string, dec: string -> Option<R>)
      requires Codec(enc, dec)
      ensures Valid() && history == []
    {
      this.enc, this.dec, file, history := enc, dec, "", [];
    }

    /** `record_spawn`, of which `landed` characters reach the file. */
    method RecordSpawn(r: R, landed: nat)
      requires Valid()
      modifies this
      ensures Valid() && history == old(history) + [Write(r, landed)]
      ensures old(file) <= file
    {
      var midLine := file != "" && file[|file| - 1] != '\n';
      var prefix := if midLine then "\n" else "";
      var payload := prefix + enc(r) + "\n";
      assert payload == Payload(file, enc(r));
      file := file + (if landed <= |payload| then payload[..landed] else payload);
      FileThen(enc, history, Write(r, landed));
      history := history + [Write(r, landed)];
    }

    /** `records` */
    method Records() returns (out: seq<R>)
      requires Valid()
      ensures out == Landed(enc, history)
    {
      ReaderFindsExactlyTheLanded(enc, dec, history);
      out := ReadLines(dec, Lines(file));
    }
  }

  method ReadLines<R>(dec: string -> Option<R>, lines: seq<string>) returns (out: seq<R>)
    ensures out == ReadAll(Reader(dec), lines)
  {
    out := [];
    for i := 0 to |lines|
      invariant out == ReadAll(Reader(dec), lines[..i])
    {
      ReadAllThen(Reader(dec), lines, i);
      var text := Strip(lines[i]);
      if text == "" { continue; }
      match dec(text)
      case None => continue;
      case Some(x) => out := out + [x];
    }
    assert lines[..|lines|] == lines;
  }
}
