/**
 The tree digest of `agent_sys/handoff/digest.py`: a recursive, git-shaped hash
 over a directory.  `sha256` is a parameter `H`, an arbitrary function from byte
 strings to 32 bytes, so nothing below rests on a property of it.
 */
module TreeDigest {
  import opened Options
  import opened Order

  type byte = b: int | 0 <= b < 256
  type Bytes = seq<byte>
  type Digest32 = d: Bytes | |d| == 32 witness seq(32, _ => 0)
  type Sha = Bytes -> Digest32

  /** A directory as `os.scandir` yields it: entries in no particular order. */
  datatype Node =
    | File(exec: bool, data: Bytes)
    | Link(target: Bytes)
    | Dir(entries: seq<Entry>)
    | Special  // a device node, FIFO or socket

  datatype Entry = Entry(name: Bytes, node: Node)

  /** What a directory means: names to contents, with no order. */
  datatype Tree =
    | TFile(exec: bool, data: Bytes)
    | TLink(target: Bytes)
    | TDir(kids: map<Bytes, Tree>)
    | TSpecial

  datatype Result<T> = Ok(value: T) | Malformed

  // ---- what a filesystem guarantees, and what the walk refuses ----

  predicate NodeOk(n: Node)
  {
    n.Dir? ==> DirOk(n.entries)
  }

  /** Names in one directory are distinct and NUL-free, at every level. */
  predicate DirOk(es: seq<Entry>)
  {
    && (forall i, j | 0 <= i < j < |es| :: es[i].name != es[j].name)
    && (forall e | e in es :: 0 !in e.name && NodeOk(e.node))
  }

  predicate NodeClean(n: Node)
  {
    !n.Special? && (n.Dir? ==> Clean(n.entries))
  }

  /** Only files, links and directories, at every level. */
  predicate Clean(es: seq<Entry>)
  {
    forall e | e in es :: NodeClean(e.node)
  }

  function View(n: Node): (t: Tree)
    decreases n, 1
  {
    match n
    case File(x, d) => TFile(x, d)
    case Link(t) => TLink(t)
    case Dir(es) => TDir(ViewAll(es))
    case Special => TSpecial
  }

  function ViewAll(es: seq<Entry>): (m: map<Bytes, Tree>)
    ensures forall k :: k in m <==> exists e :: e in es && e.name == k
    decreases es, 0
  {
    if es == [] then map[] else ViewAll(es[1..])[es[0].name := View(es[0].node)]
  }

  lemma {:induction false} ViewAt(es: seq<Entry>, e: Entry)
    requires DirOk(es) && e in es
    ensures e.name in ViewAll(es) && ViewAll(es)[e.name] == View(e.node)
  {
    if e != es[0] {
      assert e in es[1..];
      ViewAt(es[1..], e);
      var i :| 0 <= i < |es| && es[i] == e;
      assert es[0].name != es[i].name;
    }
  }

  // ---- the encoding ----

  const MODE_FILE: Bytes := [49, 48, 48, 54, 52, 52]  // b"100644"
  const MODE_EXEC: Bytes := [49, 48, 48, 55, 53, 53]  // b"100755"
  const MODE_LINK: Bytes := [49, 50, 48, 48, 48, 48]  // b"120000"
  const MODE_DIR: Bytes := [48, 52, 48, 48, 48, 48]   // b"040000"
  const TREE_WORD: Bytes := [116, 114, 101, 101, 32]  // b"tree "

  datatype Row = Row(name: Bytes, mode: Bytes, digest: Digest32)

  predicate RowOk(r: Row)
  {
    0 !in r.name && |r.mode| == 6
  }

  /** Python's order on the tuples `(name, mode, digest)`. */
  predicate RowLess(a: Row, b: Row)
  {
    || Less(a.name, b.name)
    || (a.name == b.name && Less(a.mode, b.mode))
    || (a.name == b.name && a.mode == b.mode && Less(a.digest, b.digest))
  }

  lemma RowLessStrictTotal()
    ensures StrictTotal(RowLess)
  {
    forall x: Row ensures !RowLess(x, x) {
      LessIrreflexive(x.name); LessIrreflexive(x.mode); LessIrreflexive(x.digest);
    }
    forall x: Row, y: Row, z: Row | RowLess(x, y) && RowLess(y, z) ensures RowLess(x, z) {
      if Less(x.name, y.name) && Less(y.name, z.name) { LessTransitive(x.name, y.name, z.name); }
      if Less(x.mode, y.mode) && Less(y.mode, z.mode) { LessTransitive(x.mode, y.mode, z.mode); }
      if Less(x.digest, y.digest) && Less(y.digest, z.digest) { LessTransitive(x.digest, y.digest, z.digest); }
    }
    forall x: Row, y: Row ensures RowLess(x, y) || x == y || RowLess(y, x) {
      LessTotal(x.name, y.name); LessTotal(x.mode, y.mode); LessTotal(x.digest, y.digest);
    }
  }

  function Mode(n: Node): (m: Bytes)
    requires NodeClean(n)
    ensures |m| == 6
  {
    match n
    case File(x, _) => if x then MODE_EXEC else MODE_FILE
    case Link(_) => MODE_LINK
    case Dir(_) => MODE_DIR
  }

  function RowBytes(r: Row): (b: Bytes)
  {
    r.mode + [32] + r.name + [0] + r.digest
  }

  function Body(rows: seq<Row>): (b: Bytes)
  {
    if rows == [] then [] else RowBytes(rows[0]) + Body(rows[1..])
  }

  /** `str(n).encode()` */
  function Decimal(n: nat): (s: Bytes)
    ensures s != [] && forall c | c in s :: 48 <= c <= 57
  {
    if n < 10 then [48 + n] else Decimal(n / 10) + [48 + n % 10]
  }

  predicate AllDigits(ds: Bytes) { forall i | 0 <= i < |ds| :: 48 <= ds[i] <= 57 }

  function Number(ds: Bytes): (n: nat)
    requires AllDigits(ds)
  {
    if ds == [] then 0 else 10 * Number(ds[..|ds| - 1]) + (ds[|ds| - 1] - 48)
  }

  lemma {:induction false} NumberOfDecimal(n: nat)
    ensures AllDigits(Decimal(n)) && Number(Decimal(n)) == n
  {
    if n >= 10 {
      NumberOfDecimal(n / 10);
      assert Decimal(n)[..|Decimal(n)| - 1] == Decimal(n / 10);
    } else {
      assert Decimal(n)[..0] == [];
    }
  }

  function DirInput(rows: seq<Row>): (b: Bytes)
  {
    TREE_WORD + Decimal(|Body(rows)|) + [0] + Body(rows)
  }

  // ---- the digest ----

  function NodeDigest(H: Sha, n: Node): (d: Digest32)
    requires NodeClean(n)
    decreases n, 1
  {
    match n
    case File(_, data) => H(data)
    case Link(target) => H(target)
    case Dir(es) => Digest(H, es)
  }

  function Rows(H: Sha, es: seq<Entry>): (rows: seq<Row>)
    requires Clean(es)
    ensures |rows| == |es|
    decreases es, 0
  {
    if es == [] then [] else
      assert es[0] in es;
      [Row(es[0].name, Mode(es[0].node), NodeDigest(H, es[0].node))] + Rows(H, es[1..])
  }

  function Digest(H: Sha, es: seq<Entry>): (d: Digest32)
    requires Clean(es)
    decreases es, 1
  {
    H(DirInput(Sort(RowLess, Rows(H, es))))
  }

  /** Every byte string handed to `H` while digesting. */
  ghost function NodeInputs(H: Sha, n: Node): (s: set<Bytes>)
    requires NodeClean(n)
    decreases n, 1
  {
    match n
    case File(_, data) => {data}
    case Link(target) => {target}
    case Dir(es) => Inputs(H, es)
  }

  ghost function Inputs(H: Sha, es: seq<Entry>): (s: set<Bytes>)
    requires Clean(es)
    decreases es, 1
  {
    {DirInput(Sort(RowLess, Rows(H, es)))} + ChildInputs(H, es)
  }

  ghost function ChildInputs(H: Sha, es: seq<Entry>): (s: set<Bytes>)
    requires Clean(es)
    decreases es, 0
  {
    if es == [] then {} else
      assert es[0] in es;
      NodeInputs(H, es[0].node) + ChildInputs(H, es[1..])
  }

  /** Two different byte strings, one hashed for each side, with one digest. */
  ghost predicate Collide(H: Sha, s: set<Bytes>, t: set<Bytes>)
  {
    exists x, y | x in s && y in t :: x != y && H(x) == H(y)
  }

  lemma {:induction false} RowAt(H: Sha, es: seq<Entry>, i: nat)
    requires Clean(es) && i < |es|
    ensures es[i] in es
    ensures Rows(H, es)[i] == Row(es[i].name, Mode(es[i].node), NodeDigest(H, es[i].node))
  {
    if i > 0 {
      RowAt(H, es[1..], i - 1);
      assert es[i] == es[1..][i - 1];
    }
  }

  lemma RowsAt(H: Sha, es: seq<Entry>)
    requires DirOk(es) && Clean(es)
    ensures forall i | 0 <= i < |es| ::
      es[i] in es && Rows(H, es)[i] == Row(es[i].name, Mode(es[i].node), NodeDigest(H, es[i].node))
    ensures Distinct(Rows(H, es))
    ensures forall r | r in Rows(H, es) :: RowOk(r)
  {
    forall i | 0 <= i < |es|
      ensures es[i] in es && Rows(H, es)[i] == Row(es[i].name, Mode(es[i].node), NodeDigest(H, es[i].node))
    {
      RowAt(H, es, i);
    }
  }

  lemma {:induction false} ChildInputsContain(H: Sha, es: seq<Entry>, e: Entry)
    requires Clean(es) && e in es
    ensures NodeInputs(H, e.node) <= ChildInputs(H, es)
  {
    if e != es[0] { ChildInputsContain(H, es[1..], e); }
  }

  // ---- the encoding parses in one way only ----

  lemma {:induction false} NulSplit(a: Bytes, x: Bytes, b: Bytes, y: Bytes)
    requires 0 !in a && 0 !in b
    requires a + [0] + x == b + [0] + y
    ensures a == b && x == y
  {
    var s := a + [0] + x;
    assert s[|a|] == 0 && s[|b|] == 0;
    assert forall i | 0 <= i < |a| :: s[i] == a[i];
    assert forall i | 0 <= i < |b| :: s[i] == b[i];
    assert forall i | 0 <= i < |a| :: a[i] in a;
    assert forall i | 0 <= i < |b| :: b[i] in b;
    assert a == s[..|a|] && b == s[..|b|];
    assert x == s[|a| + 1..] && y == s[|b| + 1..];
  }

  lemma RowSplit(r: Row, x: Bytes, q: Row, y: Bytes)
    requires RowOk(r) && RowOk(q)
    requires RowBytes(r) + x == RowBytes(q) + y
    ensures r == q && x == y
  {
    var s := RowBytes(r) + x;
    assert s[..6] == r.mode && s[..6] == q.mode;
    assert s[7..] == r.name + [0] + (r.digest + x);
    assert s[7..] == q.name + [0] + (q.digest + y);
    NulSplit(r.name, r.digest + x, q.name, q.digest + y);
    assert r.digest == (r.digest + x)[..32] && q.digest == (q.digest + y)[..32];
    assert x == (r.digest + x)[32..] && y == (q.digest + y)[32..];
  }

  /** The entry list is recoverable from the body alone, without the length. */
  lemma {:induction false} BodyInjective(r: seq<Row>, q: seq<Row>)
    requires forall x | x in r :: RowOk(x)
    requires forall x | x in q :: RowOk(x)
    requires Body(r) == Body(q)
    ensures r == q
  {
    if r != [] && q != [] {
      RowSplit(r[0], Body(r[1..]), q[0], Body(q[1..]));
      BodyInjective(r[1..], q[1..]);
      assert r == [r[0]] + r[1..] && q == [q[0]] + q[1..];
    }
  }

  lemma DirInputInjective(r: seq<Row>, q: seq<Row>)
    requires forall x | x in r :: RowOk(x)
    requires forall x | x in q :: RowOk(x)
    requires DirInput(r) == DirInput(q)
    ensures r == q
  {
    var a, b := TREE_WORD + Decimal(|Body(r)|), TREE_WORD + Decimal(|Body(q)|);
    assert 0 !in a && 0 !in b;
    NulSplit(a, Body(r), b, Body(q));
    BodyInjective(r, q);
  }

  // ---- reading the encoding back ----

  function FirstNul(b: Bytes): (i: nat)
    ensures i <= |b|
  {
    if b == [] || b[0] == 0 then 0 else 1 + FirstNul(b[1..])
  }

  lemma {:induction false} FirstNulAt(a: Bytes, x: Bytes)
    requires 0 !in a
    ensures FirstNul(a + [0] + x) == |a|
  {
    var b := a + [0] + x;
    if a != [] {
      assert b[0] == a[0] && a[0] in a && b[1..] == a[1..] + [0] + x;
      FirstNulAt(a[1..], x);
    }
  }

  /** Six bytes of mode, a space, a name up to a NUL, 32 bytes of digest, and the rest. */
  function ReadRow(b: Bytes): (r: Option<(Row, Bytes)>)
  {
    if |b| < 7 || b[6] != ' ' as int then None else
      var t := b[7..];
      var i := FirstNul(t);
      if i + 33 > |t| then None else Some((Row(t[..i], b[..6], t[i + 1..i + 33]), t[i + 33..]))
  }

  function ReadRows(b: Bytes): (r: Option<seq<Row>>)
    decreases |b|
  {
    if b == [] then Some([]) else
      match ReadRow(b)
      case None => None
      case Some((row, rest)) =>
        if |rest| >= |b| then None else
          match ReadRows(rest)
          case None => None
          case Some(rows) => Some([row] + rows)
  }

  function Ascii(s: string): (b: Bytes)
    requires forall i | 0 <= i < |s| :: (s[i] as int) < 256
  {
    seq(|s|, i requires 0 <= i < |s| && (s[i] as int) < 256 => s[i] as int as byte)
  }

  /** The word `tree`, the length of the body in decimal, a NUL and a body of that length. */
  function ReadInput(b: Bytes): (r: Option<seq<Row>>)
  {
    if |b| < 5 || b[..5] != Ascii("tree ") then None else
      var t := b[5..];
      var i := FirstNul(t);
      if i == |t| || !AllDigits(t[..i]) || Number(t[..i]) != |t| - i - 1 then None else ReadRows(t[i + 1..])
  }

  lemma RowReads(r: Row, x: Bytes)
    requires RowOk(r)
    ensures ReadRow(RowBytes(r) + x) == Some((r, x))
  {
    var b := RowBytes(r) + x;
    assert b[..6] == r.mode && b[6] == 32;
    assert b[7..] == r.name + [0] + (r.digest + x);
    FirstNulAt(r.name, r.digest + x);
    var t, i := b[7..], |r.name|;
    assert t[..i] == r.name && t[i + 1..i + 33] == r.digest && t[i + 33..] == x;
  }

  lemma {:induction false} BodyReads(rows: seq<Row>)
    requires forall x | x in rows :: RowOk(x)
    ensures ReadRows(Body(rows)) == Some(rows)
  {
    if rows != [] {
      BodyReads(rows[1..]);
      RowReads(rows[0], Body(rows[1..]));
      assert rows == [rows[0]] + rows[1..];
    }
  }

  /** What is hashed for a directory is in the documented format, and reads back as its rows. */
  lemma InputReads(rows: seq<Row>)
    requires forall x | x in rows :: RowOk(x)
    ensures ReadInput(DirInput(rows)) == Some(rows)
  {
    var b, ds := DirInput(rows), Decimal(|Body(rows)|);
    assert Ascii("tree ") == [116, 114, 101, 101, 32];
    assert b[..5] == TREE_WORD && b[5..] == ds + [0] + Body(rows);
    FirstNulAt(ds, Body(rows));
    NumberOfDecimal(|Body(rows)|);
    assert b[5..][..|ds|] == ds && b[5..][|ds| + 1..] == Body(rows);
    BodyReads(rows);
  }

  /** Six octal digits as a number. */
  function Octal(m: seq<int>): (n: int)
    requires |m| == 6
  {
    (((((m[0] - 48) * 8 + m[1] - 48) * 8 + m[2] - 48) * 8 + m[3] - 48) * 8 + m[4] - 48) * 8 + m[5] - 48
  }

  const S_IFREG := 0x8000
  const S_IFLNK := 0xA000
  const S_IFDIR := 0x4000
  const S_IFMT := 0x1000   // the file type is a multiple of this
  const S_IXUSR := 0x40

  /** The row of an entry: its name, a mode with the `st_mode` bits that count, and the hash of
      the file's bytes, of the link's text, or of the directory below. */
  predicate Describes(H: Sha, r: Row, e: Entry)
    requires NodeClean(e.node)
  {
    && r.name == e.name && |r.mode| == 6
    && var type_, exec := Octal(r.mode) - Octal(r.mode) % S_IFMT, (Octal(r.mode) / S_IXUSR) % 2 == 1;
    match e.node
    case File(x, data) => type_ == S_IFREG && exec == x && r.digest == H(data)
    case Link(target) => type_ == S_IFLNK && Octal(r.mode) % S_IFMT == 0 && r.digest == H(target)
    case Dir(es) => type_ == S_IFDIR && Octal(r.mode) % S_IFMT == 0 && r.digest == Digest(H, es)
  }

  /** Permissions are `rw-r--r--`, with `x` for all three where the owner may execute. */
  lemma ModeMeans(n: Node)
    requires NodeClean(n)
    ensures var o := Octal(Mode(n));
      match n
      case File(x, _) =>
        && o - o % S_IFMT == S_IFREG && o % S_IFMT == (if x then 0x1ED else 0x1A4)
        && (o / S_IXUSR) % 2 == (if x then 1 else 0)
      case Link(_) => o == S_IFLNK
      case Dir(_) => o == S_IFDIR
  {
  }

  lemma RowDescribes(H: Sha, e: Entry)
    requires NodeClean(e.node)
    ensures Describes(H, Row(e.name, Mode(e.node), NodeDigest(H, e.node)), e)
  {
    ModeMeans(e.node);
  }

  lemma EveryRow(H: Sha, es: seq<Entry>, r: Row)
    requires Clean(es) && r in Rows(H, es)
    ensures exists e | e in es :: Describes(H, r, e)
  {
    var k :| 0 <= k < |es| && Rows(H, es)[k] == r;
    RowAt(H, es, k);
    RowDescribes(H, es[k]);
  }

  lemma EveryEntry(H: Sha, es: seq<Entry>, e: Entry)
    requires Clean(es) && e in es
    ensures exists r | r in Rows(H, es) :: Describes(H, r, e)
  {
    var k :| 0 <= k < |es| && es[k] == e;
    RowAt(H, es, k);
    RowDescribes(H, e);
    assert Rows(H, es)[k] in Rows(H, es);
  }

  /** What `tree_digest` hashes for a directory reads, in the documented format, as one row for
      each entry and no other, the names ascending byte by byte. */
  lemma DigestReads(H: Sha, es: seq<Entry>) returns (x: Bytes, rows: seq<Row>)
    requires DirOk(es) && Clean(es)
    ensures Digest(H, es) == H(x) && ReadInput(x) == Some(rows) && |rows| == |es|
    ensures forall i, j | 0 <= i < j < |rows| :: Less(rows[i].name, rows[j].name)
    ensures forall r | r in rows :: exists e | e in es :: Describes(H, r, e)
    ensures forall e | e in es :: exists r | r in rows :: Describes(H, r, e)
  {
    rows := Sort(RowLess, Rows(H, es));
    x := DirInput(rows);
    RowsAt(H, es);
    InputReads(rows);
    RowLessStrictTotal();
    SortAscending(RowLess, Rows(H, es));
    NamesAscend(H, es, rows);
    forall r | r in rows ensures exists e | e in es :: Describes(H, r, e) { EveryRow(H, es, r); }
    forall e | e in es ensures exists r | r in rows :: Describes(H, r, e) { EveryEntry(H, es, e); }
  }

  lemma RowNames(H: Sha, es: seq<Entry>, r: Row, q: Row)
    requires DirOk(es) && Clean(es) && r in Rows(H, es) && q in Rows(H, es) && r != q
    ensures r.name != q.name
  {
    var k :| 0 <= k < |es| && Rows(H, es)[k] == r;
    var l :| 0 <= l < |es| && Rows(H, es)[l] == q;
    RowAt(H, es, k);
    RowAt(H, es, l);
    assert es[k].name != es[l].name;
  }

  lemma NamesAscend(H: Sha, es: seq<Entry>, rows: seq<Row>)
    requires DirOk(es) && Clean(es) && Ascending(RowLess, rows)
    requires forall r | r in rows :: r in Rows(H, es)
    ensures forall i, j | 0 <= i < j < |rows| :: Less(rows[i].name, rows[j].name)
  {
    RowLessStrictTotal();
    forall i, j | 0 <= i < j < |rows| ensures Less(rows[i].name, rows[j].name) {
      assert rows[i] in rows && rows[j] in rows && RowLess(rows[i], rows[j]);
      RowNames(H, es, rows[i], rows[j]);
    }
  }

  // ---- main theorems ----

  /** The digest sees a tree only through its view: enumeration order is lost at every level. */
  lemma {:induction false} DigestIgnoresOrder(H: Sha, m: Node, n: Node)
    requires NodeOk(m) && NodeOk(n) && NodeClean(m) && NodeClean(n)
    requires View(m) == View(n)
    ensures Mode(m) == Mode(n) && NodeDigest(H, m) == NodeDigest(H, n)
    decreases m
  {
    if m.Dir? {
      var a, b := m.entries, n.entries;
      RowsAt(H, a);
      RowsAt(H, b);
      forall i | 0 <= i < |a| ensures Rows(H, a)[i] in Rows(H, b) {
        MatchingEntry(a[i], a, b);
        var j :| 0 <= j < |b| && b[j].name == a[i].name && View(b[j].node) == View(a[i].node);
        DigestIgnoresOrder(H, a[i].node, b[j].node);
        assert Rows(H, a)[i] == Rows(H, b)[j];
      }
      forall j | 0 <= j < |b| ensures Rows(H, b)[j] in Rows(H, a) {
        MatchingEntry(b[j], b, a);
        var i :| 0 <= i < |a| && a[i].name == b[j].name && View(a[i].node) == View(b[j].node);
        DigestIgnoresOrder(H, a[i].node, b[j].node);
        assert Rows(H, a)[i] == Rows(H, b)[j];
      }
      RowLessStrictTotal();
      SortIgnoresOrder(RowLess, Rows(H, a), Rows(H, b));
    }
  }

  lemma MatchingEntry(e: Entry, a: seq<Entry>, b: seq<Entry>)
    requires DirOk(a) && DirOk(b) && e in a && ViewAll(a) == ViewAll(b)
    ensures exists j :: 0 <= j < |b| && b[j].name == e.name && View(b[j].node) == View(e.node)
  {
    ViewAt(a, e);
    var f :| f in b && f.name == e.name;
    ViewAt(b, f);
    var j :| 0 <= j < |b| && b[j] == f;
  }

  /** Equal digests under equal modes: equal trees, or the two walks hashed a collision. */
  lemma {:induction false} DigestInjective(H: Sha, m: Node, n: Node)
    requires NodeOk(m) && NodeOk(n) && NodeClean(m) && NodeClean(n)
    requires Mode(m) == Mode(n) && NodeDigest(H, m) == NodeDigest(H, n)
    ensures View(m) == View(n) || Collide(H, NodeInputs(H, m), NodeInputs(H, n))
    decreases m
  {
    match m
    case File(_, _) =>
    case Link(_) =>
    case Dir(a) =>
      var b := n.entries;
      var x, y := Sort(RowLess, Rows(H, a)), Sort(RowLess, Rows(H, b));
      if DirInput(x) == DirInput(y) {
        RowsAt(H, a);
        RowsAt(H, b);
        DirInputInjective(x, y);
        if !Collide(H, NodeInputs(H, m), NodeInputs(H, n)) {
          SameChildren(H, a, b);
        }
      }
  }

  lemma SameChildren(H: Sha, a: seq<Entry>, b: seq<Entry>)
    requires DirOk(a) && DirOk(b) && Clean(a) && Clean(b)
    requires forall r :: r in Rows(H, a) <==> r in Rows(H, b)
    requires !Collide(H, Inputs(H, a), Inputs(H, b))
    ensures ViewAll(a) == ViewAll(b)
    decreases Dir(a), 1
  {
    forall k | k in ViewAll(a) ensures k in ViewAll(b) && ViewAll(a)[k] == ViewAll(b)[k] {
      var e :| e in a && e.name == k;
      SameChild(H, a, b, e);
    }
    RowsAt(H, a);
    RowsAt(H, b);
    forall k | k in ViewAll(b) ensures k in ViewAll(a) {
      var f :| f in b && f.name == k;
      var j :| 0 <= j < |b| && b[j] == f;
      assert Rows(H, b)[j] in Rows(H, a);
      var i :| 0 <= i < |a| && Rows(H, a)[i] == Rows(H, b)[j];
      assert a[i] in a && a[i].name == k;
    }
  }

  lemma SameChild(H: Sha, a: seq<Entry>, b: seq<Entry>, e: Entry)
    requires DirOk(a) && DirOk(b) && Clean(a) && Clean(b)
    requires forall r :: r in Rows(H, a) <==> r in Rows(H, b)
    requires !Collide(H, Inputs(H, a), Inputs(H, b))
    requires e in a
    ensures e.name in ViewAll(b) && e.name in ViewAll(a) && ViewAll(a)[e.name] == ViewAll(b)[e.name]
    decreases Dir(a), 0
  {
    var f := SameRow(H, a, b, e);
    ViewAt(a, e);
    ViewAt(b, f);
    DigestInjective(H, e.node, f.node);
    ChildInputsContain(H, a, e);
    ChildInputsContain(H, b, f);
  }

  lemma SameRow(H: Sha, a: seq<Entry>, b: seq<Entry>, e: Entry) returns (f: Entry)
    requires DirOk(a) && DirOk(b) && Clean(a) && Clean(b)
    requires forall r :: r in Rows(H, a) <==> r in Rows(H, b)
    requires e in a
    ensures f in b && f.name == e.name
    ensures Mode(f.node) == Mode(e.node) && NodeDigest(H, f.node) == NodeDigest(H, e.node)
  {
    RowsAt(H, a);
    RowsAt(H, b);
    var i :| 0 <= i < |a| && a[i] == e;
    assert Rows(H, a)[i] in Rows(H, b);
    var j :| 0 <= j < |b| && Rows(H, b)[j] == Rows(H, a)[i];
    f := b[j];
  }

  /** Barring a collision between the two walks, the digest of a directory is its identity. */
  lemma DigestIsIdentity(H: Sha, a: seq<Entry>, b: seq<Entry>)
    requires DirOk(a) && DirOk(b) && Clean(a) && Clean(b)
    ensures ViewAll(a) == ViewAll(b) ==> Digest(H, a) == Digest(H, b)
    ensures Digest(H, a) == Digest(H, b) ==>
      ViewAll(a) == ViewAll(b) || Collide(H, Inputs(H, a), Inputs(H, b))
  {
    var m, n := Dir(a), Dir(b);
    if ViewAll(a) == ViewAll(b) { DigestIgnoresOrder(H, m, n); }
    if Digest(H, a) == Digest(H, b) { DigestInjective(H, m, n); }
  }

  // ---- the code ----

  const CHUNK: nat := 0x10_0000

  /** `_file_digest`: feed the hash a chunk at a time. */
  method FileDigest(H: Sha, data: Bytes) returns (d: Digest32)
    ensures d == H(data)
  {
    var fed: Bytes, at := [], 0;
    while at < |data|
      invariant 0 <= at <= |data| && fed == data[..at]
    {
      var next := if at + CHUNK < |data| then at + CHUNK else |data|;
      fed := fed + data[at..next];
      at := next;
    }
    assert data[..at] == data;
    d := H(fed);
  }

  /** `tree_digest`: raises for a special file anywhere below, and only then. */
  method ScanDigest(H: Sha, es: seq<Entry>) returns (r: Result<Digest32>)
    ensures r.Ok? <==> Clean(es)
    ensures r.Ok? ==> r.value == Digest(H, es)
    decreases es
  {
    var rows: seq<Row> := [];
    for i := 0 to |es|
      invariant |rows| == i
      invariant forall k | 0 <= k < i :: NodeClean(es[k].node)
      invariant forall k | 0 <= k < i ::
        rows[k] == Row(es[k].name, Mode(es[k].node), NodeDigest(H, es[k].node))
    {
      var d: Digest32;
      match es[i].node {
        case Link(target) => d := H(target);
        case Dir(sub) =>
          var below := ScanDigest(H, sub);
          if below.Malformed? { return Malformed; }
          d := below.value;
        case File(_, data) => d := FileDigest(H, data);
        case Special => return Malformed;
      }
      rows := rows + [Row(es[i].name, Mode(es[i].node), d)];
    }
    forall k | 0 <= k < |es| ensures rows[k] == Rows(H, es)[k] { RowAt(H, es, k); }
    assert rows == Rows(H, es);
    r := Ok(H(DirInput(Sort(RowLess, rows))));
  }
}
