/** The byte-level log under a run (graph/checkpoint.go, FileStore): one JSON
    record a line, appended to a file that a crash can leave torn at any byte.
    JSON itself is abstract: a codec, and what is assumed of it. */
module FileStore {
  import opened GraphModel
  import opened RunLog

  newtype byte = b: int | 0 <= b < 256

  const NL: byte := 10

  predicate Space(b: byte) {
    b == 32 || 9 <= b <= 13
  }

  /** bytes.TrimSpace, for ASCII white space. */
  function Trim(s: seq<byte>): seq<byte> {
    if s == [] then []
    else if Space(s[0]) then Trim(s[1..])
    else if Space(s[|s| - 1]) then Trim(s[..|s| - 1])
    else s
  }

  /** encode: json.Marshal; decode: json.Unmarshal into a record with a kind;
      valid: json.Valid. */
  datatype Codec = Codec(known: Record -> bool, encode: Record -> seq<byte>, decode: seq<byte> -> Option<Record>,
                         valid: seq<byte> -> bool)
  {
    /** The JSON of a record that is ever written is one line that decodes to the
        record and neither starts nor ends in white space; cut short, it is not
        JSON any more. known tells which records those are: of the reals, say,
        only floating-point numbers are ever costs. */
    ghost predicate Lawful() {
      forall r | known(r) :: LawfulFor(r)
    }

    predicate AllKnown(rs: seq<Record>) {
      forall r | r in rs :: known(r)
    }

    ghost predicate LawfulFor(r: Record) {
      var e := encode(r);
      && e != [] && NL !in e && !Space(e[0]) && !Space(e[|e| - 1])
      && decode(e) == Some(r) && valid(e)
      && (forall k | 0 < k < |e| :: !valid(e[..k]) && decode(e[..k]) == None)
    }

    function Line(r: Record): seq<byte> {
      encode(r) + [NL]
    }

    function Lines(rs: seq<Record>): seq<byte> {
      if rs == [] then [] else Line(rs[0]) + Lines(rs[1..])
    }
  }

  /** What is left is the text without the spaces at both ends. */
  lemma {:induction false} TrimIs(s: seq<byte>) returns (i: nat, j: nat)
    ensures i <= j <= |s| && Trim(s) == s[i..j]
    ensures forall k | 0 <= k < i || j <= k < |s| :: s[k] == 32 || 9 <= s[k] <= 13
    ensures i < j ==> !(s[i] == 32 || 9 <= s[i] <= 13) && !(s[j - 1] == 32 || 9 <= s[j - 1] <= 13)
  {
    if s == [] {
      i, j := 0, 0;
    } else if Space(s[0]) {
      var rest := s[1..];
      i, j := TrimIs(rest);
      hide Trim;
      assert rest[i..j] == s[i + 1..j + 1];
      forall k | 1 <= k < i + 1 || j + 1 <= k < |s| ensures s[k] == 32 || 9 <= s[k] <= 13 {
        assert rest[k - 1] == s[k];
      }
      i, j := i + 1, j + 1;
    } else if Space(s[|s| - 1]) {
      i, j := TrimIs(s[..|s| - 1]);
      assert s[..|s| - 1][i..j] == s[i..j];
    } else {
      i, j := 0, |s|;
      assert s[0..|s|] == s;
    }
  }

  /** Where the first newline is, |s| if there is none. */
  function FirstNewline(s: seq<byte>): (i: nat)
    ensures i <= |s| && (i < |s| ==> s[i] == NL)
    ensures forall k | 0 <= k < i :: s[k] != NL
  {
    if s == [] || s[0] == NL then 0 else 1 + FirstNewline(s[1..])
  }

  function Prepend(r: Record, rs: Option<seq<Record>>): Option<seq<Record>> {
    if rs.None? then None else Some([r] + rs.value)
  }

  /** What the records of a file are; None is a corrupt file. */
  function Read(c: Codec, d: seq<byte>): Option<seq<Record>> {
    var i := FirstNewline(d);
    if i == |d| then
      var t := Trim(d);
      if t == [] || c.decode(t).None? then Some([]) else Some([c.decode(t).value])
    else
      var t, rest := Trim(d[..i + 1]), Read(c, d[i + 1..]);
      if t == [] then rest
      else if c.decode(t).None? then None
      else Prepend(c.decode(t).value, rest)
  }

  /** From i to j is a line of d, its newline last. */
  predicate LineAt(d: seq<byte>, i: nat, j: nat) {
    i < j <= |d| && d[j - 1] == NL && (i == 0 || d[i - 1] == NL) && forall k | i <= k < j - 1 :: d[k] != NL
  }

  /** Such a line is neither blank nor a record. */
  predicate Unreadable(c: Codec, d: seq<byte>, i: nat, j: nat) {
    i <= j <= |d| && Trim(d[i..j]) != [] && c.decode(Trim(d[i..j])).None?
  }

  /** A file is corrupt exactly if a line is unreadable that has its newline. */
  lemma {:induction false} CorruptExactly(c: Codec, d: seq<byte>)
    ensures Read(c, d).None? <==> exists i: nat, j: nat :: LineAt(d, i, j) && Unreadable(c, d, i, j)
  {
    hide Trim, LineAt, Read;
    var n := FirstNewline(d);
    if n == |d| {
      NoLine(c, d);
    } else {
      hide FirstNewline;
      var rest := d[n + 1..];
      CorruptExactly(c, rest);
      ReadFirstLine(c, d, n);
      FirstLine(d, n);
      if i: nat, j: nat :| LineAt(rest, i, j) && Unreadable(c, rest, i, j) { LineOfRest(c, d, n, i, j); }
      if i: nat, j: nat :| LineAt(d, i, j) && Unreadable(c, d, i, j) && i != 0 {
        LineAfter(d, n, i, j);
        LineOfRest(c, d, n, i - n - 1, j - n - 1);
      }
    }
  }

  lemma {:induction false} NoLine(c: Codec, d: seq<byte>)
    requires FirstNewline(d) == |d|
    ensures Read(c, d).Some? && forall i: nat, j: nat :: !LineAt(d, i, j)
  {}

  lemma {:induction false} ReadFirstLine(c: Codec, d: seq<byte>, n: nat)
    requires n < |d| && FirstNewline(d) == n
    ensures Read(c, d).None? <==> Unreadable(c, d, 0, n + 1) || Read(c, d[n + 1..]).None?
  {
    assert d[0..n + 1] == d[..n + 1];
  }

  lemma FirstLine(d: seq<byte>, n: nat)
    requires n < |d| && d[n] == NL && forall k | 0 <= k < n :: d[k] != NL
    ensures LineAt(d, 0, n + 1) && forall j: nat :: LineAt(d, 0, j) ==> j == n + 1
  {}

  lemma LineAfter(d: seq<byte>, n: nat, i: nat, j: nat)
    requires n < |d| && d[n] == NL && forall k | 0 <= k < n :: d[k] != NL
    requires LineAt(d, i, j) && i != 0
    ensures n + 1 <= i < j
  {}

  lemma LineOfRest(c: Codec, d: seq<byte>, n: nat, i: nat, j: nat)
    requires n < |d| && d[n] == NL && i <= j && n + 1 + j <= |d|
    ensures LineAt(d[n + 1..], i, j) <==> LineAt(d, i + n + 1, j + n + 1)
    ensures Unreadable(c, d[n + 1..], i, j) <==> Unreadable(c, d, i + n + 1, j + n + 1)
  {
    hide Trim;
    var rest, m := d[n + 1..], n + 1;
    assert rest[i..j] == d[i + m..j + m];
    if LineAt(rest, i, j) {
      forall k | i + m <= k < j + m - 1 ensures d[k] != NL { assert rest[k - m] == d[k]; }
    }
    if LineAt(d, i + m, j + m) {
      forall k | i <= k < j - 1 ensures rest[k] != NL { assert d[k + m] == rest[k]; }
    }
  }

  function Concat(rs: seq<Record>, more: Option<seq<Record>>): Option<seq<Record>> {
    if more.None? then None else Some(rs + more.value)
  }

  lemma ConcatUnits(recs: seq<Record>, rest: Option<seq<Record>>)
    ensures Concat([], rest) == rest && Concat(recs, Some([])) == Some(recs)
  {
    if rest.Some? { assert [] + rest.value == rest.value; }
    assert recs + [] == recs;
  }

  lemma ConcatPrepend(recs: seq<Record>, r: Record, rest: Option<seq<Record>>)
    ensures Concat(recs, Prepend(r, rest)) == Concat(recs + [r], rest)
  {
    if rest.Some? { assert recs + ([r] + rest.value) == recs + [r] + rest.value; }
  }

  /** readRecords. */
  method ReadRecords(c: Codec, d: seq<byte>) returns (res: Option<seq<Record>>)
    ensures res == Read(c, d)
  {
    hide Trim, FirstNewline;
    var recs, rest := [], d;
    ConcatUnits([], Read(c, d));
    while true
      invariant Read(c, d) == Concat(recs, Read(c, rest))
      decreases |rest|
    {
      ConcatUnits(recs, None);
      var i := FirstNewline(rest);
      var eof := i == |rest|;
      var t := Trim(if eof then rest else rest[..i + 1]);
      if t != [] {
        var r := c.decode(t);
        if r.None? { return if eof then Some(recs) else None; }
        ConcatPrepend(recs, r.value, if eof then Some([]) else Read(c, rest[i + 1..]));
        recs := recs + [r.value];
        ConcatUnits(recs, None);
      }
      if eof { return Some(recs); }
      rest := rest[i + 1..];
    }
  }

  // ----- cutTornTail -----

  /** bytes.LastIndexByte. */
  function LastIndex(s: seq<byte>, b: byte): (i: int)
    ensures -1 <= i < |s| && (i >= 0 ==> s[i] == b)
    ensures forall k | i < k < |s| :: s[k] != b
  {
    if s == [] then -1
    else if s[|s| - 1] == b then |s| - 1
    else LastIndex(s[..|s| - 1], b)
  }

  /** The backward scan, chunk bytes at a time. */
  method AfterLastNewline(d: seq<byte>, chunk: nat) returns (keep: nat)
    requires chunk > 0
    ensures keep == LastIndex(d, NL) + 1
  {
    keep := 0;
    var end := |d|;
    while end > 0
      invariant 0 <= end <= |d| && keep == 0
      invariant forall k | end <= k < |d| :: d[k] != NL
    {
      var start := if end > chunk then end - chunk else 0;
      var block := d[start..end];
      var i := LastIndex(block, NL);
      assert forall k | start <= k < end :: d[k] == block[k - start];
      if i >= 0 { return start + i + 1; }
      end := start;
    }
  }

  /** cutTornTail's result: a whole record is terminated, a torn one cut off. */
  function Repaired(c: Codec, d: seq<byte>): seq<byte> {
    var keep := LastIndex(d, NL) + 1;
    if keep == |d| then d
    else if c.valid(d[keep..]) then d + [NL]
    else d[..keep]
  }

  // ----- what is on disk -----

  /** A write that a crash cut short, or that lacks only its newline. */
  ghost predicate Torn(c: Codec, tail: seq<byte>) {
    tail == [] || exists r, k: nat :: TornAt(c, tail, r, k)
  }

  ghost predicate TornAt(c: Codec, tail: seq<byte>, r: Record, k: nat) {
    c.known(r) && 0 < k <= |c.encode(r)| && tail == c.encode(r)[..k]
  }

  /** The record that the tail holds, if all of it is there. */
  function Whole(c: Codec, tail: seq<byte>): seq<Record> {
    if tail != [] && c.valid(tail) && c.decode(tail).Some? then [c.decode(tail).value] else []
  }

  ghost predicate Holds(c: Codec, d: seq<byte>, rs: seq<Record>, tail: seq<byte>) {
    d == c.Lines(rs) + tail && c.AllKnown(rs) && Torn(c, tail)
  }

  /** d is what appends and crashes can leave. */
  ghost predicate Good(c: Codec, d: seq<byte>) {
    exists rs, tail :: Holds(c, d, rs, tail)
  }

  lemma {:induction false} TrimIsIdentity(s: seq<byte>)
    requires s != [] && !Space(s[0]) && !Space(s[|s| - 1])
    ensures Trim(s) == s
  {}

  lemma {:induction false} TrimNewline(s: seq<byte>)
    requires s != [] && !Space(s[0]) && !Space(s[|s| - 1])
    ensures Trim(s + [NL]) == s
  {
    assert (s + [NL])[..|s|] == s;
  }

  /** Trimming what starts with a printable byte leaves a non-empty prefix. */
  lemma {:induction false} TrimKeepsPrefix(s: seq<byte>) returns (k: nat)
    requires s != [] && !Space(s[0])
    ensures 0 < k <= |s| && Trim(s) == s[..k]
  {
    if Space(s[|s| - 1]) {
      k := TrimKeepsPrefix(s[..|s| - 1]);
      assert s[..|s| - 1][..k] == s[..k];
    } else {
      k := |s|;
      assert s[..k] == s;
    }
  }

  lemma {:induction false} FirstNewlineIs(s: seq<byte>, i: nat)
    requires i <= |s| && (i < |s| ==> s[i] == NL) && forall k | 0 <= k < i :: s[k] != NL
    ensures FirstNewline(s) == i
  {}

  /** A torn tail reads as the record it is all of, or as nothing. */
  lemma {:induction false} ReadTail(c: Codec, tail: seq<byte>)
    requires c.Lawful() && Torn(c, tail)
    ensures Read(c, tail) == Some(Whole(c, tail))
    ensures forall k | 0 <= k < |tail| :: tail[k] != NL
    ensures tail != [] ==> (c.valid(tail) <==> Whole(c, tail) != [])
    ensures tail != [] && c.valid(tail) ==> tail == c.encode(Whole(c, tail)[0])
    ensures c.AllKnown(Whole(c, tail))
  {
    if tail != [] {
      var r, k: nat :| TornAt(c, tail, r, k);
      assert c.LawfulFor(r);
      var e := c.encode(r);
      assert forall i | 0 <= i < |tail| :: tail[i] == e[i];
      FirstNewlineIs(tail, |tail|);
      var m := TrimKeepsPrefix(tail);
      assert tail[..m] == e[..m];
      if k == |e| {
        assert tail == e;
        TrimIsIdentity(tail);
      } else {
        assert tail == e[..k];
      }
    }
  }

  lemma {:induction false} LineReads(c: Codec, r: Record, rest: seq<byte>)
    requires c.Lawful() && c.known(r)
    ensures Read(c, c.Line(r) + rest) == Prepend(r, Read(c, rest))
  {
    assert c.LawfulFor(r);
    var e, d := c.encode(r), c.Line(r) + rest;
    assert forall k | 0 <= k < |e| :: d[k] == e[k];
    FirstNewlineIs(d, |e|);
    assert d[..|e| + 1] == e + [NL] && d[|e| + 1..] == rest;
    TrimNewline(e);
  }

  lemma {:induction false} LinesRead(c: Codec, rs: seq<Record>, rest: seq<byte>)
    requires c.Lawful() && c.AllKnown(rs)
    ensures Read(c, c.Lines(rs) + rest) == Concat(rs, Read(c, rest))
  {
    hide Read, Codec.Lawful;
    if rs == [] {
      assert c.Lines(rs) + rest == rest;
      if Read(c, rest).Some? { assert rs + Read(c, rest).value == Read(c, rest).value; }
    } else {
      assert c.Lines(rs) + rest == c.Line(rs[0]) + (c.Lines(rs[1..]) + rest);
      LineReads(c, rs[0], c.Lines(rs[1..]) + rest);
      LinesRead(c, rs[1..], rest);
      if Read(c, rest).Some? { assert [rs[0]] + (rs[1..] + Read(c, rest).value) == rs + Read(c, rest).value; }
    }
  }

  /** A file that appends and crashes left is never corrupt: it reads as its
      lines, and the record of its tail if that is whole. */
  lemma {:induction false} GoodReads(c: Codec, d: seq<byte>, rs: seq<Record>, tail: seq<byte>)
    requires c.Lawful() && Holds(c, d, rs, tail)
    ensures Read(c, d) == Some(rs + Whole(c, tail)) && c.AllKnown(rs + Whole(c, tail))
  {
    LinesRead(c, rs, tail);
    ReadTail(c, tail);
  }

  lemma {:induction false} LinesEnd(c: Codec, rs: seq<Record>)
    ensures c.Lines(rs) == [] || c.Lines(rs)[|c.Lines(rs)| - 1] == NL
    ensures rs == [] <==> c.Lines(rs) == []
  {
    if rs != [] { LinesEnd(c, rs[1..]); }
  }

  lemma {:induction false} LinesSnoc(c: Codec, rs: seq<Record>, r: Record)
    ensures c.Lines(rs + [r]) == c.Lines(rs) + c.Line(r)
  {
    if rs == [] {
      assert rs + [r] == [r] && c.Lines([r][1..]) == [];
    } else {
      assert (rs + [r])[0] == rs[0] && (rs + [r])[1..] == rs[1..] + [r];
      LinesSnoc(c, rs[1..], r);
    }
  }

  lemma {:induction false} LastNewlineIs(d: seq<byte>, i: int)
    requires -1 <= i < |d| && (i >= 0 ==> d[i] == NL) && forall k | i < k < |d| :: d[k] != NL
    ensures LastIndex(d, NL) == i
  {}

  lemma {:induction false} TailStarts(c: Codec, d: seq<byte>, rs: seq<Record>, tail: seq<byte>)
    requires c.Lawful() && Holds(c, d, rs, tail)
    ensures LastIndex(d, NL) + 1 == |c.Lines(rs)|
    ensures d[|c.Lines(rs)|..] == tail && d[..|c.Lines(rs)|] == c.Lines(rs)
  {
    ReadTail(c, tail);
    LinesEnd(c, rs);
    var lines := c.Lines(rs);
    assert forall k | |lines| <= k < |d| :: d[k] == tail[k - |lines|];
    LastNewlineIs(d, |lines| - 1);
  }

  /** cutTornTail loses no record that a reader could see, and what it leaves
      are whole lines. */
  lemma {:induction false} RepairKeepsRecords(c: Codec, d: seq<byte>, rs: seq<Record>, tail: seq<byte>)
    requires c.Lawful() && Holds(c, d, rs, tail)
    ensures Repaired(c, d) == c.Lines(rs + Whole(c, tail))
  {
    hide Codec.Lawful, Torn, Codec.Lines, LastIndex, Read;
    TailStarts(c, d, rs, tail);
    ReadTail(c, tail);
    if tail != [] && c.valid(tail) {
      var r := Whole(c, tail)[0];
      LinesSnoc(c, rs, r);
      assert d + [NL] == c.Lines(rs) + c.Line(r);
    } else {
      assert rs + Whole(c, tail) == rs;
      assert d[..|c.Lines(rs)|] == c.Lines(rs);
    }
  }

  // ----- whole histories -----

  /** durable: every kind but these two is fsynced before Append returns. */
  predicate Durable(r: Record) {
    !r.body.NodeStart? && !r.body.Edge?
  }

  /** A log file: whether it is there, with which bytes, and what a power loss
      cannot take, its name in the directory and how many of the bytes. */
  datatype Disk = Disk(there: bool, named: bool, bytes: seq<byte>, synced: nat)

  const NO_FILE := Disk(false, false, [], 0)

  /** How far an Append got: not to an open file; or, the file now being there,
      some of the torn tail cut off, or some of the record's line written after
      the repair. */
  datatype Extent = Untouched | Cut(left: nat) | Wrote(n: nat)

  /** dir: the directory was synced. gone: the file is not there any more. */
  datatype Event = Append(rec: Record, extent: Extent, ok: bool, dir: bool) | PowerLoss(left: nat, gone: bool)

  function Min(a: nat, b: nat): nat {
    if a <= b then a else b
  }

  function Keep(d: seq<byte>): nat {
    LastIndex(d, NL) + 1
  }

  /** What can happen to d. An Append that returns has written its whole line; a
      tail is cut only if it is not a whole record; the directory is synced, if
      at all, by the Append that found no file; a power loss takes bytes off the
      end that were not synced, and the file if its name was not. */
  predicate Possible(c: Codec, d: Disk, e: Event) {
    (e.Append? ==> c.known(e.rec) && (e.dir ==> e.ok && !d.there)) &&
    match e
    case Append(_, Untouched, ok, _) => !ok
    case Append(_, Cut(m), ok, _) =>
      !ok && Keep(d.bytes) <= m <= |d.bytes| && (m < |d.bytes| ==> !c.valid(d.bytes[Keep(d.bytes)..]))
    case Append(r, Wrote(n), ok, _) => n <= |c.Line(r)| && (ok ==> n == |c.Line(r)|)
    case PowerLoss(m, gone) => if gone then !d.named else d.synced <= m <= |d.bytes|
  }

  /** What e leaves. A file that is there after a power loss is in the directory. */
  function After(c: Codec, d: Disk, e: Event): Disk
    requires Possible(c, d, e)
  {
    match e
    case Append(_, Untouched, _, _) => d
    case Append(_, Cut(m), _, dir) => Disk(true, if d.there then d.named else dir, d.bytes[..m], Min(d.synced, m))
    case Append(r, Wrote(n), ok, dir) =>
      var base := Repaired(c, d.bytes);
      Disk(true, if d.there then d.named else dir, base + c.Line(r)[..n],
           if ok && Durable(r) then |base| + n else Min(d.synced, |base|))
    case PowerLoss(m, gone) => if gone then NO_FILE else Disk(d.there, d.there, d.bytes[..m], d.synced)
  }

  /** A possible history of a file, from its creation. */
  predicate History(c: Codec, h: seq<Event>)
    decreases |h|, 0
  {
    h == [] || (History(c, h[..|h| - 1]) && Possible(c, DiskAfter(c, h[..|h| - 1]), h[|h| - 1]))
  }

  function DiskAfter(c: Codec, h: seq<Event>): Disk
    requires History(c, h)
    decreases |h|, 1
  {
    if h == [] then NO_FILE else After(c, DiskAfter(c, h[..|h| - 1]), h[|h| - 1])
  }

  /** What Load returns; never a corrupt file, see HistoryIsSafe. */
  function Loaded(c: Codec, d: seq<byte>): seq<Record> {
    if Read(c, d).Some? then Read(c, d).value else []
  }

  lemma CutTailIsTorn(c: Codec, tail: seq<byte>, m: nat)
    requires Torn(c, tail) && m <= |tail|
    ensures Torn(c, tail[..m])
  {
    if m > 0 {
      var r, k: nat :| TornAt(c, tail, r, k);
      assert TornAt(c, tail[..m], r, m);
    }
  }

  /** Cutting a tail that is not whole shows a reader nothing new. */
  lemma CutTailShowsNothing(c: Codec, tail: seq<byte>, m: nat)
    requires c.Lawful() && Torn(c, tail) && m <= |tail|
    ensures Torn(c, tail[..m])
    ensures m < |tail| ==> Whole(c, tail[..m]) == []
    ensures m == |tail| ==> tail[..m] == tail
  {
    CutTailIsTorn(c, tail, m);
    if 0 < m < |tail| {
      var r, k: nat :| TornAt(c, tail, r, k);
      assert c.LawfulFor(r) && tail[..m] == c.encode(r)[..m];
    }
  }

  /** Whatever part of a line is on disk, the file reads; the record is there as
      soon as its JSON is. */
  lemma PartOfLineHolds(c: Codec, rs: seq<Record>, r: Record, k: nat) returns (landed: bool)
    requires c.Lawful() && c.AllKnown(rs) && c.known(r) && k <= |c.Line(r)|
    ensures Good(c, c.Lines(rs) + c.Line(r)[..k])
    ensures Read(c, c.Lines(rs) + c.Line(r)[..k]) == Some(if landed then rs + [r] else rs)
    ensures landed <==> k >= |c.encode(r)|
  {
    hide Codec.Lines, Codec.LawfulFor, Read, Torn;
    var e, part := c.encode(r), c.Line(r)[..k];
    landed := k >= |e|;
    if k == |e| + 1 {
      LinesSnoc(c, rs, r);
      assert part == c.Line(r) && c.Lines(rs + [r]) + [] == c.Lines(rs) + part;
      EmptyIsTorn(c);
      assert Holds(c, c.Lines(rs) + part, rs + [r], []);
      GoodReads(c, c.Lines(rs) + part, rs + [r], []);
      assert rs + [r] + [] == rs + [r];
    } else {
      assert part == e[..k];
      PartIsTorn(c, r, k);
      assert Holds(c, c.Lines(rs) + part, rs, part);
      GoodReads(c, c.Lines(rs) + part, rs, part);
      assert rs + [] == rs;
    }
  }

  lemma EmptyIsTorn(c: Codec)
    ensures Torn(c, []) && Whole(c, []) == []
  {}

  lemma PartIsTorn(c: Codec, r: Record, k: nat)
    requires c.Lawful() && c.known(r) && k <= |c.encode(r)|
    ensures Torn(c, c.encode(r)[..k])
    ensures Whole(c, c.encode(r)[..k]) == if k == |c.encode(r)| then [r] else []
  {
    assert c.LawfulFor(r);
    if k > 0 { assert TornAt(c, c.encode(r)[..k], r, k); }
    if k == |c.encode(r)| { assert c.encode(r)[..k] == c.encode(r); }
  }

  lemma {:induction false} CutIsSafe(c: Codec, d: seq<byte>, m: nat)
    requires c.Lawful() && Good(c, d) && Keep(d) <= m <= |d|
    ensures Good(c, d[..m]) && Read(c, d).Some? && Read(c, d[..m]).Some?
    ensures Loaded(c, d[..m]) <= Loaded(c, d)
    ensures m == |d| || !c.valid(d[Keep(d)..]) ==> Loaded(c, d[..m]) == Loaded(c, d)
  {
    hide Codec.Lawful, Codec.Lines, Torn, Read, LastIndex;
    var rs, tail :| Holds(c, d, rs, tail);
    GoodReads(c, d, rs, tail);
    TailStarts(c, d, rs, tail);
    var n := |c.Lines(rs)|;
    CutTailShowsNothing(c, tail, m - n);
    assert d[..m] == c.Lines(rs) + tail[..m - n];
    assert Holds(c, d[..m], rs, tail[..m - n]);
    GoodReads(c, d[..m], rs, tail[..m - n]);
  }

  lemma WriteIsSafe(c: Codec, d: seq<byte>, r: Record, n: nat) returns (landed: bool)
    requires c.Lawful() && Good(c, d) && c.known(r) && n <= |c.Line(r)|
    ensures Read(c, d).Some? && Good(c, Repaired(c, d) + c.Line(r)[..n])
    ensures Read(c, Repaired(c, d) + c.Line(r)[..n]) == Some(if landed then Loaded(c, d) + [r] else Loaded(c, d))
    ensures n == |c.Line(r)| ==> landed
    ensures Repaired(c, d) == c.Lines(Loaded(c, d)) && c.AllKnown(Loaded(c, d))
  {
    hide Codec.Lawful, Codec.Lines, Torn, Read, LastIndex, Repaired;
    var rs, tail :| Holds(c, d, rs, tail);
    GoodReads(c, d, rs, tail);
    RepairKeepsRecords(c, d, rs, tail);
    landed := PartOfLineHolds(c, rs + Whole(c, tail), r, n);
  }

  /** The first m bytes of a good file read as the first of its records. */
  lemma {:induction false} AnyPrefixIsGood(c: Codec, rs: seq<Record>, tail: seq<byte>, m: nat)
    requires c.Lawful() && c.AllKnown(rs) && Torn(c, tail) && m <= |c.Lines(rs) + tail|
    ensures Good(c, (c.Lines(rs) + tail)[..m])
    ensures Loaded(c, (c.Lines(rs) + tail)[..m]) <= rs + Whole(c, tail)
  {
    hide Codec.Lawful, Codec.Lines, Torn, Read, Whole;
    var d := c.Lines(rs) + tail;
    if m >= |c.Lines(rs)| {
      CutInTail(c, rs, tail, m - |c.Lines(rs)|);
      assert d[..m] == c.Lines(rs) + tail[..m - |c.Lines(rs)|];
    } else {
      LinesHead(c, rs);
      var r, rest := rs[0], c.Lines(rs[1..]) + tail;
      if m <= |c.Line(r)| {
        var _ := PartOfLineHolds(c, [], r, m);
        LinesOfNone(c);
        assert d[..m] == c.Lines([]) + c.Line(r)[..m];
        assert [] <= rs + Whole(c, tail) && [] + [r] <= rs + Whole(c, tail);
      } else {
        AnyPrefixIsGood(c, rs[1..], tail, m - |c.Line(r)|);
        assert d[..m] == c.Line(r) + rest[..m - |c.Line(r)|];
        LineThenGood(c, r, rest[..m - |c.Line(r)|]);
        assert rs + Whole(c, tail) == [r] + (rs[1..] + Whole(c, tail));
      }
    }
  }

  lemma {:induction false} LinesHead(c: Codec, rs: seq<Record>)
    requires c.Lines(rs) != []
    ensures rs != [] && c.Lines(rs) == c.Line(rs[0]) + c.Lines(rs[1..])
  {}

  lemma {:induction false} LinesOfNone(c: Codec)
    ensures c.Lines([]) == []
  {}

  lemma {:induction false} CutInTail(c: Codec, rs: seq<Record>, tail: seq<byte>, k: nat)
    requires c.Lawful() && c.AllKnown(rs) && Torn(c, tail) && k <= |tail|
    ensures Good(c, c.Lines(rs) + tail[..k])
    ensures Loaded(c, c.Lines(rs) + tail[..k]) <= rs + Whole(c, tail)
  {
    hide Codec.Lawful, Codec.Lines, Torn, Read, Whole;
    CutTailShowsNothing(c, tail, k);
    assert Holds(c, c.Lines(rs) + tail[..k], rs, tail[..k]);
    GoodReads(c, c.Lines(rs) + tail[..k], rs, tail[..k]);
    assert rs + [] == rs;
  }

  lemma LineThenGood(c: Codec, r: Record, d: seq<byte>)
    requires c.Lawful() && c.known(r) && Good(c, d)
    ensures Good(c, c.Line(r) + d) && Loaded(c, c.Line(r) + d) == [r] + Loaded(c, d)
  {
    hide Codec.Lawful, Torn, Read;
    var rs, tail :| Holds(c, d, rs, tail);
    GoodReads(c, d, rs, tail);
    LineReads(c, r, d);
    assert ([r] + rs)[1..] == rs;
    assert c.Line(r) + d == c.Lines([r] + rs) + tail;
    assert Holds(c, c.Line(r) + d, [r] + rs, tail);
  }

  /** One event: the file stays good, an append keeps what was loaded, and a power
      loss takes no more than the last of it. */
  lemma EventIsSafe(c: Codec, d: Disk, e: Event) returns (landed: bool)
    requires c.Lawful() && Good(c, d.bytes) && Possible(c, d, e)
    ensures Good(c, After(c, d, e).bytes)
    ensures Read(c, After(c, d, e).bytes).Some?
    ensures e.Append? ==> Loaded(c, After(c, d, e).bytes) == Loaded(c, d.bytes) + if landed then [e.rec] else []
    ensures e.Append? && e.ok ==> landed
    ensures e.PowerLoss? ==> Loaded(c, After(c, d, e).bytes) <= Loaded(c, d.bytes)
  {
    hide Codec.Lawful, Codec.Lines, Read, Repaired, Torn;
    landed := false;
    match e
    case Append(_, Untouched, _, _) => CutIsSafe(c, d.bytes, |d.bytes|);
    case Append(_, Cut(m), _, _) => CutIsSafe(c, d.bytes, m);
    case Append(r, Wrote(n), _, _) => landed := WriteIsSafe(c, d.bytes, r, n);
    case PowerLoss(m, gone) =>
      NewFileIsGood(c);
      if gone { return; }
      var rs, tail :| Holds(c, d.bytes, rs, tail);
      GoodReads(c, d.bytes, rs, tail);
      AnyPrefixIsGood(c, rs, tail, m);
      var rs', tail' :| Holds(c, d.bytes[..m], rs', tail');
      GoodReads(c, d.bytes[..m], rs', tail');
  }

  /** A history is its last event, after the history before it. */
  lemma {:induction false} HistoryStep(c: Codec, h: seq<Event>)
    requires History(c, h) && h != []
    ensures var n := |h| - 1;
      && History(c, h[..n]) && Possible(c, DiskAfter(c, h[..n]), h[n])
      && DiskAfter(c, h) == After(c, DiskAfter(c, h[..n]), h[n])
  {
    hide Possible, After;
  }

  lemma {:induction false} NewFileIsGood(c: Codec)
    requires c.Lawful()
    ensures History(c, []) && DiskAfter(c, []).bytes == [] && Good(c, []) && Read(c, []) == Some([])
  {
    EmptyIsTorn(c);
    assert Holds(c, [], [], []);
    GoodReads(c, [], [], []);
  }

  /** NEVER CORRUPT. After any history of appends, each cut short anywhere, and
      power losses, the file is one that Load accepts. */
  lemma {:induction false} HistoryIsSafe(c: Codec, h: seq<Event>)
    requires c.Lawful() && History(c, h)
    ensures Good(c, DiskAfter(c, h).bytes) && Read(c, DiskAfter(c, h).bytes).Some?
  {
    hide Codec.Lawful, Read, Good, History, DiskAfter, After, Possible;
    if h == [] {
      NewFileIsGood(c);
    } else {
      HistoryStep(c, h);
      HistoryIsSafe(c, h[..|h| - 1]);
      var _ := EventIsSafe(c, DiskAfter(c, h[..|h| - 1]), h[|h| - 1]);
    }
  }

  predicate NoPowerLossSince(h: seq<Event>, i: nat) {
    forall j | i <= j < |h| :: h[j].Append?
  }

  function Landed(h: seq<Event>, landed: seq<bool>): seq<Record>
    requires |h| == |landed| && NoPowerLossSince(h, 0)
  {
    if h == [] then []
    else Landed(h[..|h| - 1], landed[..|h| - 1]) + if landed[|h| - 1] then [h[|h| - 1].rec] else []
  }

  lemma {:induction false} LandedSnoc(h: seq<Event>, landed: seq<bool>, l: bool)
    requires h != [] && |landed| == |h| - 1 && NoPowerLossSince(h, 0)
    ensures Landed(h, landed + [l]) == Landed(h[..|h| - 1], landed) + if l then [h[|h| - 1].rec] else []
  {
    assert (landed + [l])[..|h| - 1] == landed;
  }

  /** NOTHING LOST TO A KILLED PROCESS. Load returns, in order, every record
      whose Append returned, perhaps some whose Append was cut short, and
      nothing else. */
  lemma {:induction false} EveryAppendIsLoaded(c: Codec, h: seq<Event>) returns (landed: seq<bool>)
    requires c.Lawful() && History(c, h) && NoPowerLossSince(h, 0)
    ensures |landed| == |h| && Loaded(c, DiskAfter(c, h).bytes) == Landed(h, landed)
    ensures forall i | 0 <= i < |h| && h[i].ok :: landed[i]
  {
    hide Codec.Lawful, Read, Good, History, DiskAfter, After, Possible;
    if h == [] {
      NewFileIsGood(c);
      landed := [];
    } else {
      hide Landed, Loaded;
      var n := |h| - 1;
      HistoryStep(c, h);
      HistoryIsSafe(c, h[..n]);
      var before := EveryAppendIsLoaded(c, h[..n]);
      var l := EventIsSafe(c, DiskAfter(c, h[..n]), h[n]);
      LandedSnoc(h, before, l);
      landed := before + [l];
    }
  }

  lemma {:induction false} HistoryPrefix(c: Codec, h: seq<Event>, i: nat)
    requires History(c, h) && i <= |h|
    ensures History(c, h[..i])
  {
    hide History, Possible, After, DiskAfter;
    if i == |h| {
      assert h[..i] == h;
    } else {
      HistoryStep(c, h);
      HistoryPrefix(c, h[..|h| - 1], i);
      assert h[..|h| - 1][..i] == h[..i];
    }
  }

  /** What Load returned once, every later Load returns first, while the machine
      has power. */
  lemma {:induction false} LoadsOnlyGrow(c: Codec, h: seq<Event>, i: nat)
    requires c.Lawful() && History(c, h) && i <= |h| && NoPowerLossSince(h, i)
    ensures History(c, h[..i])
    ensures Loaded(c, DiskAfter(c, h[..i]).bytes) <= Loaded(c, DiskAfter(c, h).bytes)
  {
    hide Codec.Lawful, Read, Good, Loaded, History, DiskAfter, After, Possible;
    HistoryPrefix(c, h, i);
    if i == |h| {
      assert h[..i] == h;
    } else {
      var n := |h| - 1;
      HistoryStep(c, h);
      LoadsOnlyGrow(c, h[..n], i);
      assert h[..n][..i] == h[..i];
      HistoryIsSafe(c, h[..n]);
      var _ := EventIsSafe(c, DiskAfter(c, h[..n]), h[n]);
    }
  }

  /** The lines of rs are on disk, and synced, and the file is in its directory. */
  predicate Secured(c: Codec, d: Disk, rs: seq<Record>) {
    d.there && d.named && c.Lines(rs) <= d.bytes && |c.Lines(rs)| <= d.synced
  }

  lemma KeepCovers(d: seq<byte>, lines: seq<byte>)
    requires lines <= d && (lines == [] || lines[|lines| - 1] == NL)
    ensures Keep(d) >= |lines|
  {
    assert lines == [] || d[|lines| - 1] == NL;
  }

  lemma SecuredStays(c: Codec, d: Disk, rs: seq<Record>, e: Event)
    requires Secured(c, d, rs) && Possible(c, d, e)
    ensures Secured(c, After(c, d, e), rs)
  {
    hide Codec.Lines, LastIndex;
    var lines := c.Lines(rs);
    LinesEnd(c, rs);
    KeepCovers(d.bytes, lines);
    assert lines == d.bytes[..|lines|];
    match e
    case Append(_, Untouched, _, _) =>
    case Append(_, Cut(m), _, _) =>
      assert d.bytes[..m][..|lines|] == lines;
    case Append(_, Wrote(_), _, _) =>
      assert Repaired(c, d.bytes)[..|lines|] == lines;
    case PowerLoss(m, _) =>
      assert d.bytes[..m][..|lines|] == lines;
  }

  /** The Append of a durable record returned. */
  predicate DurableAt(h: seq<Event>, i: nat) {
    i < |h| && h[i].Append? && h[i].ok && Durable(h[i].rec)
  }

  /** NOTHING DURABLE LOST TO A POWER CUT. Once the Append of a durable record
      has returned, that record and all that Load returned before it stay in
      every later Load, whatever crashes and power losses follow, provided that
      the file is in its directory for good. */
  lemma {:induction false} DurableSurvives(c: Codec, h: seq<Event>, i: nat)
    requires c.Lawful() && History(c, h) && DurableAt(h, i)
    ensures History(c, h[..i]) && History(c, h[..i + 1])
    ensures DiskAfter(c, h[..i + 1]).named ==>
      Loaded(c, DiskAfter(c, h[..i]).bytes) + [h[i].rec] <= Loaded(c, DiskAfter(c, h).bytes)
  {
    hide Codec.Lawful, Read, Good, Codec.Lines, History, DiskAfter, After, Possible, Loaded;
    HistoryPrefix(c, h, i);
    HistoryPrefix(c, h, i + 1);
    if !DiskAfter(c, h[..i + 1]).named { return; }
    StaysSecured(c, h, i);
    HistoryIsSafe(c, h);
    var rs := Loaded(c, DiskAfter(c, h[..i]).bytes) + [h[i].rec];
    SecuredIsLoaded(c, DiskAfter(c, h), rs);
  }

  lemma {:induction false} SecuredIsLoaded(c: Codec, d: Disk, rs: seq<Record>)
    requires c.Lawful() && c.AllKnown(rs) && Secured(c, d, rs) && Read(c, d.bytes).Some?
    ensures rs <= Loaded(c, d.bytes)
  {
    hide Codec.Lawful, Read, Codec.Lines;
    LinesRead(c, rs, d.bytes[|c.Lines(rs)|..]);
    assert d.bytes == c.Lines(rs) + d.bytes[|c.Lines(rs)|..];
  }

  lemma {:induction false} StaysSecured(c: Codec, h: seq<Event>, i: nat)
    requires c.Lawful() && History(c, h) && DurableAt(h, i)
    requires History(c, h[..i + 1]) && DiskAfter(c, h[..i + 1]).named
    ensures History(c, h[..i])
    ensures var rs := Loaded(c, DiskAfter(c, h[..i]).bytes) + [h[i].rec];
      c.AllKnown(rs) && Secured(c, DiskAfter(c, h), rs)
    decreases |h|
  {
    hide Codec.Lawful, Read, Good, Loaded, Secured, Codec.Lines, History, DiskAfter, After, Possible;
    var n := |h| - 1;
    HistoryStep(c, h);
    if i == n {
      HistoryIsSafe(c, h[..n]);
      assert h[..i + 1] == h;
      AppendSecures(c, DiskAfter(c, h[..n]), h[n]);
    } else {
      assert h[..n][..i] == h[..i] && h[..n][..i + 1] == h[..i + 1];
      StaysSecured(c, h[..n], i);
      SecuredStays(c, DiskAfter(c, h[..n]), Loaded(c, DiskAfter(c, h[..i]).bytes) + [h[i].rec], h[n]);
    }
  }

  lemma AppendSecures(c: Codec, d: Disk, e: Event)
    requires c.Lawful() && Good(c, d.bytes) && Possible(c, d, e) && e.Append? && e.ok && Durable(e.rec)
    requires After(c, d, e).named
    ensures var rs := Loaded(c, d.bytes) + [e.rec]; c.AllKnown(rs) && Secured(c, After(c, d, e), rs)
  {
    hide Codec.Lawful, Codec.Lines, Good, Read, Loaded, Repaired;
    var r := e.rec;
    var _ := WriteIsSafe(c, d.bytes, r, |c.Line(r)|);
    LinesSnoc(c, Loaded(c, d.bytes), r);
    assert c.Line(r)[..|c.Line(r)|] == c.Line(r);
  }

  /** THE NAME DECIDES. What an Append of a durable record has returned for is
      in every later Load, whatever follows, if and only if the file's name is
      secure by then. */
  lemma {:induction false} DurableExactlyIfNamed(c: Codec, h: seq<Event>, i: nat)
    requires c.Lawful() && History(c, h) && DurableAt(h, i) && |h| == i + 1
    ensures History(c, h[..i])
    ensures DiskAfter(c, h).named <==>
      forall h' | h <= h' && History(c, h') ::
        Loaded(c, DiskAfter(c, h[..i]).bytes) + [h[i].rec] <= Loaded(c, DiskAfter(c, h').bytes)
  {
    hide Codec.Lawful, Read, Good, Codec.Lines, History, DiskAfter, After, Possible, Loaded;
    HistoryPrefix(c, h, i);
    if DiskAfter(c, h).named {
      forall h' | h <= h' && History(c, h')
        ensures Loaded(c, DiskAfter(c, h[..i]).bytes) + [h[i].rec] <= Loaded(c, DiskAfter(c, h').bytes)
      {
        assert h'[..i] == h[..i] && h'[..i + 1] == h;
        DurableSurvives(c, h', i);
      }
    } else {
      Vanishes(c, h);
      assert h <= h + [PowerLoss(0, true)];
    }
  }

  /** A power loss can take all of a file whose name is not secure. */
  lemma {:induction false} Vanishes(c: Codec, h: seq<Event>)
    requires c.Lawful() && History(c, h) && !DiskAfter(c, h).named
    ensures History(c, h + [PowerLoss(0, true)])
    ensures Loaded(c, DiskAfter(c, h + [PowerLoss(0, true)]).bytes) == []
  {
    hide Codec.Lawful, Read;
    assert (h + [PowerLoss(0, true)])[..|h|] == h;
    NewFileIsGood(c);
  }

  /** e, which happens to d, is what secures the name: the sync of the directory,
      or a power loss that the file comes through. */
  predicate Secures(d: Disk, e: Event) {
    if e.Append? then e.dir else d.there && !e.gone
  }

  /** The file has not vanished from event i on. */
  predicate StaysThere(h: seq<Event>, i: nat) {
    forall j | i <= j < |h| :: h[j].PowerLoss? ==> !h[j].gone
  }

  /** When the name is secure: if the Append that created the file came as far as
      syncing the directory, and could, or if the file came through a power
      loss. No later Append makes up for it. */
  lemma {:induction false} NamedIs(c: Codec, h: seq<Event>)
    requires History(c, h)
    ensures DiskAfter(c, h).named ==> DiskAfter(c, h).there
    ensures DiskAfter(c, h).named <==> exists i: nat :: i < |h| && SecuredAt(c, h, i) && StaysThere(h, i)
  {
    hide History, Possible, After, SecuredAt, StaysThere;
    if h != [] {
      var n := |h| - 1;
      HistoryStep(c, h);
      NamedIs(c, h[..n]);
      hide DiskAfter;
      NamedAfter(c, DiskAfter(c, h[..n]), h[n]);
      forall i: nat | i < n
        ensures SecuredAt(c, h, i) && StaysThere(h, i) <==>
                SecuredAt(c, h[..n], i) && StaysThere(h[..n], i) && !(h[n].PowerLoss? && h[n].gone)
      {
        SecuredAtPrefix(c, h, i);
      }
      SecuredLast(c, h);
    }
  }

  predicate SecuredAt(c: Codec, h: seq<Event>, i: nat)
    requires i < |h|
  {
    History(c, h[..i]) && Secures(DiskAfter(c, h[..i]), h[i])
  }

  lemma {:induction false} SecuredAtPrefix(c: Codec, h: seq<Event>, i: nat)
    requires i < |h| - 1
    ensures SecuredAt(c, h, i) <==> SecuredAt(c, h[..|h| - 1], i)
    ensures StaysThere(h, i) <==> StaysThere(h[..|h| - 1], i) && !(h[|h| - 1].PowerLoss? && h[|h| - 1].gone)
  {
    hide History, DiskAfter;
    assert h[..|h| - 1][..i] == h[..i];
    assert forall j | 0 <= j < |h| - 1 :: h[..|h| - 1][j] == h[j];
  }

  lemma {:induction false} SecuredLast(c: Codec, h: seq<Event>)
    requires h != [] && History(c, h[..|h| - 1])
    ensures SecuredAt(c, h, |h| - 1) && StaysThere(h, |h| - 1) <==>
            Secures(DiskAfter(c, h[..|h| - 1]), h[|h| - 1])
  {}

  lemma NamedAfter(c: Codec, d: Disk, e: Event)
    requires Possible(c, d, e) && (d.named ==> d.there)
    ensures var d' := After(c, d, e);
      && (d'.named ==> d'.there)
      && (d'.named <==> Secures(d, e) || (d.named && !(e.PowerLoss? && e.gone)))
  {}

  lemma {:induction false} NothingYet(c: Codec)
    ensures History(c, []) && DiskAfter(c, []) == NO_FILE
  {}

  lemma {:induction false} HistoryGoesOn(c: Codec, h: seq<Event>, e: Event)
    requires History(c, h) && Possible(c, DiskAfter(c, h), e)
    ensures History(c, h + [e]) && DiskAfter(c, h + [e]) == After(c, DiskAfter(c, h), e)
  {
    hide Possible, After;
    assert (h + [e])[..|h|] == h;
  }

  /** A file whose first Append died once it had created it: the next Append
      returns, and the power takes the file. */
  lemma {:induction false} NameNeverSecured(c: Codec, r: Record)
    requires c.Lawful() && c.known(r) && Durable(r)
    ensures var h := [Append(r, Cut(0), false, false), Append(r, Wrote(|c.Line(r)|), true, false), PowerLoss(0, true)];
      History(c, h) && DurableAt(h, 1) && Loaded(c, DiskAfter(c, h).bytes) == []
  {
    var a, b := Append(r, Cut(0), false, false), Append(r, Wrote(|c.Line(r)|), true, false);
    NewFileIsGood(c);
    hide Codec.Lawful, History, DiskAfter, Repaired, Read;
    assert DiskAfter(c, []) == NO_FILE by { NothingYet(c); }
    HistoryGoesOn(c, [], a);
    HistoryGoesOn(c, [a], b);
    assert [] + [a] == [a] && [a] + [b] == [a, b] && [a, b] + [PowerLoss(0, true)] == [a, b, PowerLoss(0, true)];
    Vanishes(c, [a, b]);
  }

  // ----- the laws can be met -----

  /** n times 'a', then 'b': a code in which no word begins another. */
  function Word(n: nat): seq<byte> {
    seq(n, _ => 97 as byte) + [98]
  }

  predicate IsWord(s: seq<byte>) {
    s != [] && s == Word(|s| - 1)
  }

  function Place(r: Record, rs: seq<Record>): (i: nat)
    ensures r in rs ==> i < |rs| && rs[i] == r
  {
    if rs == [] || rs[0] == r then 0 else 1 + Place(r, rs[1..])
  }

  /** Whichever records are ever written to a file, there is a codec that is
      lawful for them: nothing is proved here of codecs that do not exist. */
  lemma {:induction false} LawfulCodec(rs: seq<Record>) returns (c: Codec)
    ensures c.Lawful() && c.AllKnown(rs) && forall r | c.known(r) :: r in rs
  {
    c := Codec(r => r in rs,
               r => Word(Place(r, rs)),
               s => if IsWord(s) && |s| <= |rs| then Some(rs[|s| - 1]) else None,
               s => IsWord(s));
    forall r | c.known(r) ensures c.LawfulFor(r) {
      var e := c.encode(r);
      assert e == Word(Place(r, rs)) && |e| == Place(r, rs) + 1;
      assert NL !in e && e[|e| - 1] == 98 && (e[0] == 97 || e[0] == 98);
      forall k | 0 < k < |e| ensures !IsWord(e[..k]) { assert e[..k][k - 1] == 97; }
    }
  }

  // ----- the code that makes these events -----

  /** The log file of a run, in its directory. The file system may fail a call and
      the process may die at one; faults counts that. */
  class File {
    var there: bool
    var bytes: seq<byte>
    ghost var named: bool
    ghost var synced: nat
    ghost var faults: nat

    ghost function OnDisk(): Disk
      reads this
    {
      Disk(there, named, bytes, synced)
    }

    ghost predicate Valid()
      reads this
    {
      synced <= |bytes| && (!there ==> OnDisk() == NO_FILE)
    }

    /** Something fails, or nothing does. */
    method Fails() returns (bad: bool)
      modifies this`faults
      ensures faults == old(faults) + if bad then 1 else 0
    {
      bad := false;
      if * { bad, faults := true, faults + 1; }
    }

    /** os.OpenFile with O_CREATE. */
    method Open() returns (ok: bool)
      requires Valid()
      modifies this`there, this`faults
      ensures Valid() && there == (ok || old(there)) && faults == old(faults) + if ok then 0 else 1
    {
      var bad := Fails();
      if bad { return false; }
      ok, there := true, true;
    }

    /** syncDir, whose error nobody looks at. */
    method SyncDir() returns (ghost done: bool)
      modifies this`named, this`faults
      ensures named == (old(named) || done) && faults == old(faults) + if done then 0 else 1
    {
      var bad := Fails();
      done := !bad;
      named := named || done;
    }

    /** to: how far the file was cut. */
    method Truncate(n: nat) returns (ok: bool, ghost to: nat)
      requires n <= |bytes|
      modifies this`bytes, this`synced, this`faults
      ensures n <= to <= |old(bytes)| && (ok ==> to == n)
      ensures bytes == old(bytes)[..to] && synced == Min(old(synced), to)
      ensures faults == old(faults) + if ok then 0 else 1
    {
      var m, bad := n, false;
      bad := Fails();
      if bad { m :| n <= m <= |bytes|; }
      ok, to := !bad, m;
      bytes, synced := bytes[..m], Min(synced, m);
    }

    /** A write stops short when the process dies or the disk is full. */
    method Write(data: seq<byte>) returns (n: nat)
      modifies this`bytes, this`faults
      ensures n <= |data| && bytes == old(bytes) + data[..n] && synced == old(synced)
      ensures faults >= old(faults) && (n < |data| ==> faults > old(faults))
    {
      n := |data|;
      var bad := Fails();
      if bad { n :| n <= |data|; }
      bytes := bytes + data[..n];
    }

    method Sync() returns (ok: bool)
      modifies this`synced, this`faults
      ensures synced == (if ok then |bytes| else old(synced)) && faults == old(faults) + if ok then 0 else 1
    {
      var bad := Fails();
      ok := !bad;
      if ok { synced := |bytes|; }
    }
  }

  /** cutTornTail. stopped: the process died at it, or the file system did. */
  method CutTornTail(c: Codec, fh: File, chunk: nat) returns (stopped: bool, ghost to: nat)
    requires chunk > 0 && fh.synced <= |fh.bytes|
    modifies fh`bytes, fh`synced, fh`faults
    ensures fh.faults >= old(fh.faults) && (fh.faults == old(fh.faults) ==> !stopped)
    ensures !stopped ==> fh.bytes == Repaired(c, old(fh.bytes)) && fh.synced == Min(old(fh.synced), |fh.bytes|)
    ensures stopped && fh.bytes != Repaired(c, old(fh.bytes)) ==>
      Keep(old(fh.bytes)) <= to <= |old(fh.bytes)| && fh.bytes == old(fh.bytes)[..to]
      && fh.synced == Min(old(fh.synced), to)
      && (to < |old(fh.bytes)| ==> !c.valid(old(fh.bytes)[Keep(old(fh.bytes))..]))
    ensures stopped && fh.bytes == Repaired(c, old(fh.bytes)) ==> fh.synced == Min(old(fh.synced), |fh.bytes|)
  {
    ghost var d := fh.bytes;
    to := |d|;
    assert d[..to] == d;
    stopped := fh.Fails();
    if stopped || |fh.bytes| == 0 { return; }
    if fh.bytes[|fh.bytes| - 1] == NL { return; }
    var keep := AfterLastNewline(fh.bytes, chunk);
    stopped, to := RepairTail(c, fh, keep);
  }

  /** A tail that is a whole record is terminated, any other cut off. */
  method RepairTail(c: Codec, fh: File, keep: nat) returns (stopped: bool, ghost to: nat)
    requires keep == Keep(fh.bytes) < |fh.bytes| && fh.synced <= |fh.bytes|
    modifies fh`bytes, fh`synced, fh`faults
    ensures fh.faults >= old(fh.faults) && (fh.faults == old(fh.faults) ==> !stopped)
    ensures !stopped ==> fh.bytes == Repaired(c, old(fh.bytes)) && fh.synced == Min(old(fh.synced), |fh.bytes|)
    ensures stopped && fh.bytes != Repaired(c, old(fh.bytes)) ==>
      Keep(old(fh.bytes)) <= to <= |old(fh.bytes)| && fh.bytes == old(fh.bytes)[..to]
      && fh.synced == Min(old(fh.synced), to)
      && (to < |old(fh.bytes)| ==> !c.valid(old(fh.bytes)[Keep(old(fh.bytes))..]))
    ensures stopped && fh.bytes == Repaired(c, old(fh.bytes)) ==> fh.synced == Min(old(fh.synced), |fh.bytes|)
  {
    hide LastIndex;
    var tail := fh.bytes[keep..];
    to := |fh.bytes|;
    assert fh.bytes[..to] == fh.bytes;
    if c.valid(tail) {
      var n := fh.Write([NL]);
      stopped := n < 1;
    } else {
      var ok;
      ok, to := fh.Truncate(keep);
      stopped := !ok;
    }
  }

  /** The record's line, n bytes of it, and the syncs. */
  method WriteLine(c: Codec, fh: File, r: Record, isNew: bool) returns (ok: bool, ghost n: nat, ghost dir: bool)
    requires fh.synced <= |fh.bytes|
    modifies fh`bytes, fh`synced, fh`named, fh`faults
    ensures n <= |c.Line(r)| && fh.bytes == old(fh.bytes) + c.Line(r)[..n] && (ok ==> n == |c.Line(r)|)
    ensures fh.synced == if ok && Durable(r) then |fh.bytes| else old(fh.synced)
    ensures fh.named == (old(fh.named) || dir) && (dir ==> ok && isNew)
    ensures fh.faults >= old(fh.faults) && (fh.faults == old(fh.faults) ==> ok && dir == isNew)
  {
    var line := c.Line(r);
    var written := fh.Write(line);
    n, dir := written, false;
    if written < |line| { return false, n, dir; }
    ok := true;
    if Durable(r) {
      ok := fh.Sync();
      if !ok { return; }
    }
    if isNew { dir := fh.SyncDir(); }
  }

  /** fileStore.Append: create the file, repair it, write the line, sync the kinds
      that recovery depends on, and the directory if the file is new. Whatever
      happens, it is one of the possible events; and if nothing fails, the record
      is written, whatever was left there before, and the syncs are done. */
  method AppendRecord(c: Codec, fh: File, r: Record, chunk: nat) returns (ok: bool, ghost e: Event)
    requires chunk > 0 && fh.Valid() && c.known(r)
    modifies fh
    ensures fh.Valid()
    ensures e.Append? && e.rec == r && e.ok == ok
    ensures Possible(c, old(fh.OnDisk()), e) && fh.OnDisk() == After(c, old(fh.OnDisk()), e)
    ensures fh.faults == old(fh.faults) ==>
      ok && e.extent == Wrote(|c.Line(r)|) && (e.dir <==> !old(fh.there))
    ensures ok ==> fh.bytes == Repaired(c, old(fh.bytes)) + c.encode(r) + [10]
    ensures ok && !r.body.NodeStart? && !r.body.Edge? ==> fh.synced == |fh.bytes|
  {
    assert Repaired(c, []) == [] && Keep([]) == 0;
    hide Repaired, Keep, LastIndex;
    var isNew := !fh.there;
    ok := fh.Open();
    if !ok { return false, Append(r, Untouched, false, false); }
    var stopped;
    ghost var to;
    stopped, to := CutTornTail(c, fh, chunk);
    if stopped {
      assert Repaired(c, old(fh.bytes)) + c.Line(r)[..0] == Repaired(c, old(fh.bytes));
      e := Append(r, if fh.bytes == Repaired(c, old(fh.bytes)) then Wrote(0) else Cut(to), false, false);
      return false, e;
    }
    ghost var n, dir;
    ok, n, dir := WriteLine(c, fh, r, isNew);
    assert c.Line(r)[..|c.Line(r)|] == c.Line(r) == c.encode(r) + [10];
    e := Append(r, Wrote(n), ok, dir);
  }
}
