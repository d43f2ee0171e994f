/**
 The reverse index over closures in `agent_sys/closure/query.py`, against a plain
 scan of the catalogue.
 */
module ClosureIndex {
  import opened Order

  /** What the index reads of a closure document. */
  datatype Doc = Doc(inputs: seq<string>, outputs: seq<string>, validators: seq<string>, agent: string)

  /** The registries: per handoff kind its own validators, and the known names. */
  datatype Registries = Registries(handoffs: map<string, seq<string>>, agents: set<string>, validators: set<string>)

  type Table = map<string, seq<string>>

  datatype Index = Index(
    byKind: Table, byAgent: Table, byValidator: Table, validatorsByClosure: Table,
    knownKinds: set<string>, knownAgents: set<string>, knownValidators: set<string>)

  datatype Answer = SpecNotFound | Found(closures: seq<string>)

  // ---- names in order ----

  function Codes(s: string): (c: seq<int>) { seq(|s|, i requires 0 <= i < |s| => s[i] as int) }

  predicate NameLess(a: string, b: string) { Less(Codes(a), Codes(b)) }

  lemma NameLessStrictTotal()
    ensures StrictTotal(NameLess)
  {
    forall x: string ensures !NameLess(x, x) { LessIrreflexive(Codes(x)); }
    forall x: string, y: string, z: string | NameLess(x, y) && NameLess(y, z) ensures NameLess(x, z) {
      LessTransitive(Codes(x), Codes(y), Codes(z));
    }
    forall x: string, y: string ensures NameLess(x, y) || x == y || NameLess(y, x) {
      LessTotal(Codes(x), Codes(y));
      if Codes(x) == Codes(y) {
        assert |x| == |y|;
        forall i | 0 <= i < |x| ensures x[i] == y[i] { assert Codes(x)[i] == Codes(y)[i]; }
      }
    }
  }

  /** `sorted(closures)` */
  method SortedNames(names: set<string>) returns (r: seq<string>)
    ensures Ascending(NameLess, r) && forall n :: n in r <==> n in names
  {
    var rest, found: seq<string> := names, [];
    while rest != {}
      invariant rest <= names && Distinct(found)
      invariant forall n :: n in found <==> n in names && n !in rest
      decreases |rest|
    {
      var n :| n in rest;
      found, rest := found + [n], rest - {n};
    }
    NameLessStrictTotal();
    SortAscending(NameLess, found);
    r := Sort(NameLess, found);
  }

  // ---- the plain scan ----

  /** `dict.fromkeys`: first occurrences, in order. */
  function Dedup(xs: seq<string>): (r: seq<string>)
    ensures forall x :: x in r <==> x in xs
  {
    if xs == [] then [] else
      var pre, x := Dedup(xs[..|xs| - 1]), xs[|xs| - 1];
      assert xs == xs[..|xs| - 1] + [x];
      if x in pre then pre else pre + [x]
  }

  function Kinds(d: Doc): (r: seq<string>) { Dedup(d.inputs + d.outputs) }

  function Validators(d: Doc): (r: seq<string>) { d.validators }

  function Agents(d: Doc): (r: seq<string>) { if d.agent == "" then [] else [d.agent] }

  /** The names, in order, of the closures that name `key`. */
  function Scan(names: seq<string>, docs: map<string, Doc>, of: Doc -> seq<string>, key: string): (r: seq<string>)
    requires forall n | n in names :: n in docs
  {
    if names == [] then [] else
      var last := names[|names| - 1];
      Scan(names[..|names| - 1], docs, of, key) + (if key in of(docs[last]) then [last] else [])
  }

  lemma {:induction false} ScanMembers(names: seq<string>, docs: map<string, Doc>, of: Doc -> seq<string>, key: string)
    requires forall n | n in names :: n in docs
    ensures forall n :: n in Scan(names, docs, of, key) <==> n in names && key in of(docs[n])
  {
    if names != [] {
      ScanMembers(names[..|names| - 1], docs, of, key);
      assert names == names[..|names| - 1] + [names[|names| - 1]];
    }
  }

  lemma {:induction false} ScanAscending(names: seq<string>, docs: map<string, Doc>, of: Doc -> seq<string>,
                                         key: string)
    requires Ascending(NameLess, names) && forall n | n in names :: n in docs
    ensures Ascending(NameLess, Scan(names, docs, of, key))
  {
    if names != [] {
      var pre := names[..|names| - 1];
      ScanAscending(pre, docs, of, key);
      ScanMembers(pre, docs, of, key);
      var s := Scan(pre, docs, of, key);
      forall i | 0 <= i < |s| ensures NameLess(s[i], names[|names| - 1]) {
        assert s[i] in s;
        var j :| 0 <= j < |pre| && pre[j] == s[i];
        assert names[j] == s[i];
      }
    }
  }

  // ---- building ----

  function Bucket(t: Table, key: string): (r: seq<string>) { if key in t then t[key] else [] }

  /** `_append` */
  function Append(t: Table, key: string, name: string): (r: Table)
    ensures forall k ::
      Bucket(r, k) == if k == key && name !in Bucket(t, k) then Bucket(t, k) + [name] else Bucket(t, k)
  {
    var bucket := Bucket(t, key);
    t[key := if name in bucket then bucket else bucket + [name]]
  }

  /** `_append` for every key of one closure. */
  method AppendAll(t: Table, keys: seq<string>, name: string) returns (r: Table)
    requires forall k :: name !in Bucket(t, k)
    ensures forall k :: Bucket(r, k) == Bucket(t, k) + (if k in keys then [name] else [])
  {
    r := t;
    for i := 0 to |keys|
      invariant forall k :: Bucket(r, k) == Bucket(t, k) + (if k in keys[..i] then [name] else [])
    {
      assert keys[..i + 1] == keys[..i] + [keys[i]];
      r := Append(r, keys[i], name);
    }
    assert keys[..|keys|] == keys;
  }

  // ---- the join with the kinds' own validators ----

  /** Each of `xs` in turn, unless already there. */
  function AddAll(joined: seq<string>, xs: seq<string>): (r: seq<string>)
    ensures joined <= r && forall x :: x in r <==> x in joined || x in xs
    decreases |xs|
  {
    if xs == [] then joined else
      var pre, x := AddAll(joined, xs[..|xs| - 1]), xs[|xs| - 1];
      assert xs == xs[..|xs| - 1] + [x];
      if x in pre then pre else pre + [x]
  }

  /** The validators that the kinds name, kind after kind. */
  function Brought(kinds: seq<string>, handoffs: map<string, seq<string>>): (r: seq<string>)
    ensures forall v :: v in r <==> exists k | k in kinds :: k in handoffs && v in handoffs[k]
  {
    if kinds == [] then [] else
      var pre, k := kinds[..|kinds| - 1], kinds[|kinds| - 1];
      assert kinds == pre + [k];
      Brought(pre, handoffs) + (if k in handoffs then handoffs[k] else [])
  }

  /** The phase validators as declared, then what the inputs and after them the outputs bring
      besides, in that order and once each. */
  function Joined(d: Doc, handoffs: map<string, seq<string>>): (r: seq<string>)
  {
    AddAll(d.validators, Brought(d.inputs + d.outputs, handoffs))
  }

  lemma {:induction false} AddAllSplit(joined: seq<string>, xs: seq<string>, ys: seq<string>)
    ensures AddAll(joined, xs + ys) == AddAll(AddAll(joined, xs), ys)
    decreases |ys|
  {
    if ys == [] { assert xs + ys == xs; }
    else {
      AddAllSplit(joined, xs, ys[..|ys| - 1]);
      assert (xs + ys)[..|xs + ys| - 1] == xs + ys[..|ys| - 1];
    }
  }

  lemma {:induction false} AddAllKnown(joined: seq<string>, xs: seq<string>)
    requires forall x | x in xs :: x in joined
    ensures AddAll(joined, xs) == joined
    decreases |xs|
  {
    if xs != [] {
      AddAllKnown(joined, xs[..|xs| - 1]);
      assert xs[|xs| - 1] in xs;
    }
  }

  /** Naming a kind twice brings nothing more. */
  lemma {:induction false} DedupBrings(base: seq<string>, kinds: seq<string>, handoffs: map<string, seq<string>>)
    ensures AddAll(base, Brought(Dedup(kinds), handoffs)) == AddAll(base, Brought(kinds, handoffs))
  {
    if kinds != [] {
      var pre, k := kinds[..|kinds| - 1], kinds[|kinds| - 1];
      var own := if k in handoffs then handoffs[k] else [];
      DedupBrings(base, pre, handoffs);
      AddAllSplit(base, Brought(pre, handoffs), own);
      if k in Dedup(pre) {
        AddAllKnown(AddAll(base, Brought(pre, handoffs)), own);
      } else {
        assert Dedup(kinds) == Dedup(pre) + [k] && Dedup(kinds)[..|Dedup(kinds)| - 1] == Dedup(pre);
        AddAllSplit(base, Brought(Dedup(pre), handoffs), own);
      }
    }
  }

  /** Membership in the join, and that what is added is added once. */
  lemma {:induction false} AddedOnce(base: seq<string>, xs: seq<string>)
    ensures forall i, j | |base| <= j < |AddAll(base, xs)| && 0 <= i < j :: AddAll(base, xs)[i] != AddAll(base, xs)[j]
    decreases |xs|
  {
    if xs != [] { AddedOnce(base, xs[..|xs| - 1]); }
  }

  lemma JoinedMeans(d: Doc, handoffs: map<string, seq<string>>)
    ensures d.validators <= Joined(d, handoffs)
    ensures forall v :: v in Joined(d, handoffs) <==>
      v in d.validators || exists k | k in handoffs && (k in d.inputs || k in d.outputs) :: v in handoffs[k]
    ensures var j := Joined(d, handoffs); forall a, b | |d.validators| <= b < |j| && 0 <= a < b :: j[a] != j[b]
  {
    AddedOnce(d.validators, Brought(d.inputs + d.outputs, handoffs));
    forall v ensures v in Joined(d, handoffs) <==>
      v in d.validators || exists k | k in handoffs && (k in d.inputs || k in d.outputs) :: v in handoffs[k]
    {
      if v in Brought(d.inputs + d.outputs, handoffs) {
        var k :| k in d.inputs + d.outputs && k in handoffs && v in handoffs[k];
      }
      if k :| k in handoffs && (k in d.inputs || k in d.outputs) && v in handoffs[k] {
        assert k in d.inputs + d.outputs;
      }
    }
  }

  /** The loop of `build_index` over the kinds of one closure. */
  method JoinValidators(d: Doc, handoffs: map<string, seq<string>>) returns (joined: seq<string>)
    ensures joined == Joined(d, handoffs)
  {
    joined := d.validators;
    var kinds := Kinds(d);
    for i := 0 to |kinds|
      invariant joined == AddAll(d.validators, Brought(kinds[..i], handoffs))
    {
      var k := kinds[i];
      assert kinds[..i + 1][..i] == kinds[..i];
      if k in handoffs {
        AddAllSplit(d.validators, Brought(kinds[..i], handoffs), handoffs[k]);
        joined := JoinMore(joined, handoffs[k]);
      } else {
        assert Brought(kinds[..i + 1], handoffs) == Brought(kinds[..i], handoffs);
      }
    }
    assert kinds[..|kinds|] == kinds;
    DedupBrings(d.validators, d.inputs + d.outputs, handoffs);
  }

  method JoinMore(joined: seq<string>, more: seq<string>) returns (r: seq<string>)
    ensures r == AddAll(joined, more)
  {
    r := joined;
    for i := 0 to |more|
      invariant r == AddAll(joined, more[..i])
    {
      assert more[..i + 1][..i] == more[..i];
      if more[i] !in r { r := r + [more[i]]; }
    }
    assert more[..|more|] == more;
  }

  // ---- the index ----

  /** The table answers every key as the scan does. */
  ghost predicate Inverts(t: Table, names: seq<string>, docs: map<string, Doc>, of: Doc -> seq<string>)
    requires forall n | n in names :: n in docs
  {
    forall k :: Bucket(t, k) == Scan(names, docs, of, k)
  }

  /** One closure's share of one table. */
  method Extend(t: Table, order: seq<string>, i: nat, docs: map<string, Doc>, of: Doc -> seq<string>) returns (r: Table)
    requires i < |order| && Ascending(NameLess, order) && forall n | n in order :: n in docs
    requires Inverts(t, order[..i], docs, of)
    ensures Inverts(r, order[..i + 1], docs, of)
  {
    var name := order[i];
    FreshName(order, i);
    forall k ensures name !in Bucket(t, k) { ScanMembers(order[..i], docs, of, k); }
    r := AppendAll(t, of(docs[name]), name);
    assert order[..i + 1][..i] == order[..i];
  }

  method JoinAll(order: seq<string>, docs: map<string, Doc>, handoffs: map<string, seq<string>>) returns (joined: Table)
    requires forall n | n in order :: n in docs
    ensures forall n :: n in joined <==> n in order
    ensures forall n | n in order :: joined[n] == Joined(docs[n], handoffs)
  {
    joined := map[];
    for i := 0 to |order|
      invariant forall n :: n in joined <==> n in order[..i]
      invariant forall n | n in order[..i] :: joined[n] == Joined(docs[n], handoffs)
    {
      var js := JoinValidators(docs[order[i]], handoffs);
      joined := joined[order[i] := js];
      assert order[..i + 1] == order[..i] + [order[i]];
    }
    assert order[..|order|] == order;
  }

  lemma FreshName(order: seq<string>, i: nat)
    requires Ascending(NameLess, order) && i < |order|
    ensures order[i] !in order[..i]
  {
    NameLessStrictTotal();
  }

  /** `r` is the sorted, repeat-free list of the names in `ns`. */
  ghost predicate Lists(r: seq<string>, ns: set<string>)
  {
    Ascending(NameLess, r) && forall n :: n in r <==> n in ns
  }

  /** A list is determined by that. */
  lemma ListsOne(r: seq<string>, q: seq<string>, ns: set<string>)
    requires Lists(r, ns) && Lists(q, ns)
    ensures r == q
  {
    NameLessStrictTotal();
    AscendingUnique(NameLess, r, q);
  }

  /** What the index of a catalogue is, in terms of the documents. */
  ghost predicate IsIndex(ix: Index, docs: map<string, Doc>, regs: Registries)
  {
    && (forall k :: Lists(Bucket(ix.byKind, k), set n | n in docs && (k in docs[n].inputs || k in docs[n].outputs)))
    && (forall a :: Lists(Bucket(ix.byAgent, a), set n | n in docs && a != "" && docs[n].agent == a))
    && (forall v :: Lists(Bucket(ix.byValidator, v), set n | n in docs && v in docs[n].validators))
    && ix.validatorsByClosure.Keys == docs.Keys
    && (forall n | n in docs :: ix.validatorsByClosure[n] == Joined(docs[n], regs.handoffs))
    && ix.knownKinds == regs.handoffs.Keys && ix.knownAgents == regs.agents && ix.knownValidators == regs.validators
  }

  lemma InvertsLists(t: Table, names: seq<string>, docs: map<string, Doc>, of: Doc -> seq<string>, k: string)
    requires Ascending(NameLess, names) && (forall n :: n in names <==> n in docs) && Inverts(t, names, docs, of)
    ensures Lists(Bucket(t, k), set n | n in docs && k in of(docs[n]))
  {
    ScanMembers(names, docs, of, k);
    ScanAscending(names, docs, of, k);
  }

  /** `build_index` builds the index of the catalogue. */
  method BuildIndex(docs: map<string, Doc>, regs: Registries) returns (ix: Index)
    ensures IsIndex(ix, docs, regs)
  {
    var order := SortedNames(docs.Keys);
    var joined := JoinAll(order, docs, regs.handoffs);
    var byKind: Table, byAgent: Table, byValidator: Table := map[], map[], map[];
    for i := 0 to |order|
      invariant Inverts(byKind, order[..i], docs, Kinds)
      invariant Inverts(byAgent, order[..i], docs, Agents)
      invariant Inverts(byValidator, order[..i], docs, Validators)
    {
      byKind := Extend(byKind, order, i, docs, Kinds);
      byAgent := Extend(byAgent, order, i, docs, Agents);
      byValidator := Extend(byValidator, order, i, docs, Validators);
    }
    assert order[..|order|] == order;
    ix := Index(byKind, byAgent, byValidator, joined, regs.handoffs.Keys, regs.agents, regs.validators);
    KindLists(byKind, order, docs);
    AgentLists(byAgent, order, docs);
    ValidatorLists(byValidator, order, docs);
  }

  lemma KindsAre(docs: map<string, Doc>, k: string)
    ensures (set n | n in docs && k in Kinds(docs[n])) ==
      set n | n in docs && (k in docs[n].inputs || k in docs[n].outputs)
  {
    forall n | n in docs ensures k in Kinds(docs[n]) <==> k in docs[n].inputs || k in docs[n].outputs {}
  }

  lemma KindLists(t: Table, names: seq<string>, docs: map<string, Doc>)
    requires Ascending(NameLess, names) && (forall n :: n in names <==> n in docs) && Inverts(t, names, docs, Kinds)
    ensures forall k :: Lists(Bucket(t, k), set n | n in docs && (k in docs[n].inputs || k in docs[n].outputs))
  {
    forall k ensures Lists(Bucket(t, k), set n | n in docs && (k in docs[n].inputs || k in docs[n].outputs)) {
      InvertsLists(t, names, docs, Kinds, k);
      KindsAre(docs, k);
    }
  }

  lemma AgentsAre(docs: map<string, Doc>, a: string)
    ensures (set n | n in docs && a in Agents(docs[n])) == set n | n in docs && a != "" && docs[n].agent == a
  {
    forall n | n in docs ensures a in Agents(docs[n]) <==> a != "" && docs[n].agent == a {}
  }

  lemma AgentLists(t: Table, names: seq<string>, docs: map<string, Doc>)
    requires Ascending(NameLess, names) && (forall n :: n in names <==> n in docs) && Inverts(t, names, docs, Agents)
    ensures forall a :: Lists(Bucket(t, a), set n | n in docs && a != "" && docs[n].agent == a)
  {
    forall a ensures Lists(Bucket(t, a), set n | n in docs && a != "" && docs[n].agent == a) {
      InvertsLists(t, names, docs, Agents, a);
      AgentsAre(docs, a);
    }
  }

  lemma ValidatorLists(t: Table, names: seq<string>, docs: map<string, Doc>)
    requires Ascending(NameLess, names) && (forall n :: n in names <==> n in docs)
    requires Inverts(t, names, docs, Validators)
    ensures forall v :: Lists(Bucket(t, v), set n | n in docs && v in docs[n].validators)
  {
    forall v ensures Lists(Bucket(t, v), set n | n in docs && v in docs[n].validators) {
      InvertsLists(t, names, docs, Validators, v);
    }
  }

  // ---- queries ----

  function Ask(t: Table, known: set<string>, key: string): (a: Answer)
  {
    if key !in known then SpecNotFound else Found(Bucket(t, key))
  }

  function ClosuresUsingKind(ix: Index, kind: string): (a: Answer) { Ask(ix.byKind, ix.knownKinds, kind) }

  function ClosuresUsingAgent(ix: Index, agent: string): (a: Answer) { Ask(ix.byAgent, ix.knownAgents, agent) }

  function ClosuresUsingValidator(ix: Index, name: string): (a: Answer)
  {
    Ask(ix.byValidator, ix.knownValidators, name)
  }

  function ValidatorsFor(ix: Index, closure: string, doc: Doc): (r: seq<string>)
  {
    if closure in ix.validatorsByClosure then ix.validatorsByClosure[closure] else doc.validators
  }

  /** The only right answer to a query: raise for a name outside the universe, and otherwise the
      sorted, repeat-free list of the closures, empty for a name that none uses. */
  ghost predicate Answers(a: Answer, known: set<string>, key: string, users: set<string>)
  {
    if key !in known then a.SpecNotFound? else a.Found? && Lists(a.closures, users)
  }

  /** Every query of the index, against the documents themselves. */
  lemma QueriesAgree(ix: Index, docs: map<string, Doc>, regs: Registries, key: string)
    requires IsIndex(ix, docs, regs)
    ensures Answers(ClosuresUsingKind(ix, key), regs.handoffs.Keys, key,
                    set n | n in docs && (key in docs[n].inputs || key in docs[n].outputs))
    ensures Answers(ClosuresUsingAgent(ix, key), regs.agents, key,
                    set n | n in docs && key != "" && docs[n].agent == key)
    ensures Answers(ClosuresUsingValidator(ix, key), regs.validators, key,
                    set n | n in docs && key in docs[n].validators)
    ensures forall doc ::
      ValidatorsFor(ix, key, doc) == if key in docs then Joined(docs[key], regs.handoffs) else doc.validators
  {
    assert Lists(Bucket(ix.byKind, key), set n | n in docs && (key in docs[n].inputs || key in docs[n].outputs));
    assert Lists(Bucket(ix.byAgent, key), set n | n in docs && key != "" && docs[n].agent == key);
    assert Lists(Bucket(ix.byValidator, key), set n | n in docs && key in docs[n].validators);
  }

  /** And there is only one. */
  lemma AnswerIsOne(a: Answer, b: Answer, known: set<string>, key: string, users: set<string>)
    requires Answers(a, known, key, users) && Answers(b, known, key, users)
    ensures a == b
  {
    if key in known { ListsOne(a.closures, b.closures, users); }
  }
}
