/**
 The on-disk format of the Run journal: canonical one-line records, the hash chain
 they form, and the verification scan that every open and replay performs.

 serde_json and SHA-256 are parameters (`Serde`). What is assumed of them is written
 out in `Lawful`; collision freedom of the hash is never assumed, a collision is
 exhibited instead.
 */
module JournalFormat {
  import opened Common
  import opened Json

  const MAX_RECORD_BYTES: nat := 1024 * 1024

  datatype JournalHead = JournalHead(manifest_sha256: string, sequence: U64, journal_root: string, journal_bytes: U64)

  datatype Entry = Entry(seqno: U64, ts: string, kind: string, epoch: U64, prev: string, body: Value)

  // ----- serialization, taken as given

  /** Canonical serialization (keys sorted, no newline) and deserialization of one type. */
  datatype Format<!T> = Format(encode: T -> Bytes, decode: Bytes -> Option<T>)

  /** `readable` is whether serde_json parses the bytes as some value at all. */
  datatype Serde = Serde(
    entry: Format<Entry>,
    head: Format<JournalHead>,
    manifest: Format<Value>,
    readable: Bytes -> bool,
    sha256: Bytes -> string)

  /** Compact JSON escapes control characters, and whatever parses at all parses back. */
  ghost predicate LawfulFormat<T(!new)>(f: Format<T>, readable: Bytes -> bool) {
    && (forall t: T :: NEWLINE !in f.encode(t))
    && (forall t: T :: readable(f.encode(t) + [NEWLINE]) ==> f.decode(f.encode(t) + [NEWLINE]) == Some(t))
  }

  ghost predicate Lawful(s: Serde) {
    && LawfulFormat(s.entry, s.readable)
    && LawfulFormat(s.head, s.readable)
    && LawfulFormat(s.manifest, s.readable)
  }

  /** The serialized line of a value, newline included. */
  function Line<T>(f: Format<T>, t: T): Bytes {
    f.encode(t) + [NEWLINE]
  }

  /** The writer's encoder: refuses oversized records and records the reader could not parse. */
  function Record<T>(f: Format<T>, readable: Bytes -> bool, t: T): Option<Bytes> {
    var bytes := Line(f, t);
    if |bytes| > MAX_RECORD_BYTES then None
    else if !readable(bytes) then None
    else Some(bytes)
  }

  /** The reader's decoder: the bytes must be the one canonical record of the value. */
  function ParseRecord<T>(f: Format<T>, readable: Bytes -> bool, bytes: Bytes): Option<T> {
    match f.decode(bytes)
    case None => None
    case Some(t) => if Record(f, readable, t) == Some(bytes) then Some(t) else None
  }

  function Digest(s: Serde, e: Entry): string { s.sha256(s.entry.encode(e)) }

  /** Whole-file records (manifest and head) are bounded before they are parsed. */
  function ReadRecordFile<T>(f: Format<T>, readable: Bytes -> bool, file: Bytes): Option<T> {
    if |file| > MAX_RECORD_BYTES then None else ParseRecord(f, readable, file)
  }

  /** Whatever the writer emits, the reader returns, and it accepts nothing else for that value. */
  lemma RecordRoundTrip<T(!new)>(f: Format<T>, readable: Bytes -> bool, t: T, bytes: Bytes)
    requires LawfulFormat(f, readable)
    ensures Record(f, readable, t) == Some(bytes) <==> ReadRecordFile(f, readable, bytes) == Some(t)
  {
    if Record(f, readable, t) == Some(bytes) {
      assert f.decode(f.encode(t) + [NEWLINE]) == Some(t);
    }
  }

  // ----- event kinds

  function Split(s: string): (parts: seq<string>)
    ensures |parts| > 0
    ensures |parts| > 1 <==> '.' in s
  {
    if s == "" then [""]
    else if s[0] == '.' then [""] + Split(s[1..])
    else
      var rest := Split(s[1..]);
      [[s[0]] + rest[0]] + rest[1..]
  }

  predicate KindChar(c: char) { 'a' <= c <= 'z' || '0' <= c <= '9' || c == '_' }

  /** A namespaced kind: at least one dot, no empty segment, restricted characters. */
  predicate ValidKind(kind: string) {
    var parts := Split(kind);
    '.' in kind && AllSegments(parts)
  }

  predicate Segment(part: string) { part != "" && forall j | 0 <= j < |part| :: KindChar(part[j]) }

  predicate AllSegments(parts: seq<string>) { forall i | 0 <= i < |parts| :: Segment(parts[i]) }

  /** Read by positions: allowed characters, and dots only between them. */
  predicate SegmentsBetweenDots(s: string) {
    && s != "" && s[0] != '.' && s[|s| - 1] != '.'
    && (forall i | 0 <= i < |s| :: s[i] in "._" || 'a' <= s[i] <= 'z' || '0' <= s[i] <= '9')
    && (forall i | 0 < i < |s| :: s[i] != '.' || s[i - 1] != '.')
  }

  lemma AllSegmentsFront(first: string, rest: seq<string>)
    ensures AllSegments([first] + rest) <==> Segment(first) && AllSegments(rest)
  {
    var whole := [first] + rest;
    assert whole[0] == first;
    assert forall i | 0 <= i < |rest| :: whole[i + 1] == rest[i];
    assert forall i | 0 < i < |whole| :: whole[i] == rest[i - 1];
  }

  lemma {:induction false} SplitIntoSegments(s: string)
    ensures AllSegments(Split(s)) <==> SegmentsBetweenDots(s)
    decreases |s|
  {
    if s == "" || s[0] == '.' {
      assert Split(s)[0] == "";
    } else {
      hide Segment, AllSegments, SegmentsBetweenDots;
      var t := s[1..];
      var rest := Split(t);
      AllSegmentsFront([s[0]] + rest[0], rest[1..]);
      FirstSegment(s[0], rest[0]);
      if t == "" {
        NoSegments();
        OneCharacter(s);
      } else if t[0] == '.' {
        SplitIntoSegments(t[1..]);
        assert rest == [""] + Split(t[1..]) && rest[1..] == Split(t[1..]);
        DotFirst(s, t[1..]);
      } else {
        SplitIntoSegments(t);
        assert rest == [rest[0]] + rest[1..];
        AllSegmentsFront(rest[0], rest[1..]);
        OneFirst(s, t);
      }
    }
  }

  lemma NoSegments()
    ensures AllSegments([])
  {
  }

  lemma OneCharacter(s: string)
    requires |s| == 1 && s[0] != '.'
    ensures SegmentsBetweenDots(s) <==> KindChar(s[0])
  {
  }

  lemma FirstSegment(c: char, part: string)
    ensures Segment([c] + part) <==> KindChar(c) && (part == "" || Segment(part))
  {
    var whole := [c] + part;
    assert whole[0] == c;
    assert forall j | 0 <= j < |part| :: whole[j + 1] == part[j];
    assert forall j | 0 < j < |whole| :: whole[j] == part[j - 1];
  }

  lemma OneFirst(s: string, t: string)
    requires s != "" && t == s[1..] && t != "" && s[0] != '.' && t[0] != '.'
    ensures SegmentsBetweenDots(s) <==> KindChar(s[0]) && SegmentsBetweenDots(t)
  {
    assert forall i | 0 <= i < |t| :: t[i] == s[i + 1];
    assert forall i | 0 < i < |s| :: s[i] == t[i - 1];
  }

  lemma DotFirst(s: string, u: string)
    requires |s| >= 2 && u == s[2..] && s[0] != '.' && s[1] == '.'
    ensures SegmentsBetweenDots(s) <==> KindChar(s[0]) && SegmentsBetweenDots(u)
  {
    assert forall i | 0 <= i < |u| :: u[i] == s[i + 2];
    assert forall i | 2 <= i < |s| :: s[i] == u[i - 2];
  }

  /** A kind is valid if and only if it has a dot, and dots stand only between allowed characters. */
  lemma ValidKindIff(kind: string)
    ensures ValidKind(kind) <==> '.' in kind && SegmentsBetweenDots(kind)
  {
    SplitIntoSegments(kind);
  }

  // ----- the chain, stated without any reading loop

  /** What an entry must satisfy to stand at position `seqno` after a record hashing to `prev`. */
  predicate Follows(s: Serde, e: Entry, seqno: nat, prev: string) {
    && e.seqno == seqno && e.prev == prev
    && ValidKind(e.kind) && e.body.Object?
    && Record(s.entry, s.readable, e).Some?
  }

  /** The hash the next entry must carry: the last entry's digest, or the starting root. */
  function RootAfter(s: Serde, root: string, es: seq<Entry>): string {
    if es == [] then root else Digest(s, es[|es| - 1])
  }

  ghost predicate Chained(s: Serde, root: string, es: seq<Entry>) {
    && |es| <= U64_MAX
    && forall i | 0 <= i < |es| :: Follows(s, es[i], i + 1, RootAfter(s, root, es[..i]))
  }

  function Flatten(s: Serde, es: seq<Entry>): Bytes {
    if es == [] then [] else Flatten(s, es[..|es| - 1]) + Line(s.entry, es[|es| - 1])
  }

  /** A head names exactly these entries. */
  ghost predicate HeadNames(s: Serde, head: JournalHead, es: seq<Entry>) {
    && head.sequence == |es|
    && head.journal_root == RootAfter(s, head.manifest_sha256, es)
    && head.journal_bytes == |Flatten(s, es)|
  }

  /** The log file's prefix is a well-formed chain and the head is its summary. */
  ghost predicate Committed(s: Serde, head: JournalHead, log: Bytes, es: seq<Entry>) {
    && Chained(s, head.manifest_sha256, es)
    && HeadNames(s, head, es)
    && Flatten(s, es) <= log
  }

  // ----- the reading loop

  /** Bytes up to and including the first newline, or all of them. */
  function LineLength(b: Bytes): (n: nat)
    ensures n <= |b| && (b != [] ==> n > 0)
    ensures NEWLINE !in b[..n] || (b[n - 1] == NEWLINE && NEWLINE !in b[..n - 1])
    ensures n == |b| || b[n - 1] == NEWLINE
  {
    if b == [] then 0
    else if b[0] == NEWLINE then 1
    else
      var n := LineLength(b[1..]);
      assert b[..n + 1] == [b[0]] + b[1..][..n];
      assert n > 0 ==> b[..n] == [b[0]] + b[1..][..n - 1];
      n + 1
  }

  /** One verification pass over the committed bytes, as a function of what is left to read. */
  function ScanFrom(s: Serde, rest: Bytes, count: nat, root: string): Option<seq<Entry>>
    decreases |rest|
  {
    if rest == [] then Some([]) else
    var n := LineLength(rest);
    if n > MAX_RECORD_BYTES then None else
    match ParseRecord(s.entry, s.readable, rest[..n])
    case None => None
    case Some(e) =>
      if count + 1 > U64_MAX || e.seqno != count + 1 || e.prev != root then None
      else if !ValidKind(e.kind) || !e.body.Object? then None
      else
        match ScanFrom(s, rest[n..], count + 1, Digest(s, e))
        case None => None
        case Some(es) => Some([e] + es)
  }

  /** The bytes of the log a head lets the scan see. */
  function Visible(head: JournalHead, log: Bytes): Bytes {
    if head.journal_bytes <= |log| then log[..head.journal_bytes] else log
  }

  /** Verdict of a full scan against a head: the entries it visits, or refusal. */
  function Verify(s: Serde, head: JournalHead, log: Bytes): Option<seq<Entry>> {
    var seen := Visible(head, log);
    match ScanFrom(s, seen, 0, head.manifest_sha256)
    case None => None
    case Some(es) =>
      if |es| == head.sequence && RootAfter(s, head.manifest_sha256, es) == head.journal_root && |seen| == head.journal_bytes
      then Some(es) else None
  }

  // ----- the scan decides exactly the chain predicate

  lemma {:induction false} FlattenFront(s: Serde, e: Entry, es: seq<Entry>)
    ensures Flatten(s, [e] + es) == Line(s.entry, e) + Flatten(s, es)
  {
    if es == [] {
      assert ([e] + es)[..0] == [];
    } else {
      FlattenFront(s, e, es[..|es| - 1]);
      assert ([e] + es)[..|es|] == [e] + es[..|es| - 1];
    }
  }

  lemma LineIsOneLine(s: Serde, e: Entry, rest: Bytes)
    requires Lawful(s)
    ensures LineLength(Line(s.entry, e) + rest) == |Line(s.entry, e)|
  {
    FirstNewline(s.entry.encode(e), rest);
    assert Line(s.entry, e) + rest == s.entry.encode(e) + ([NEWLINE] + rest);
  }

  lemma {:induction false} FirstNewline(a: Bytes, rest: Bytes)
    requires NEWLINE !in a
    ensures LineLength(a + ([NEWLINE] + rest)) == |a| + 1
  {
    if a != [] {
      FirstNewline(a[1..], rest);
      assert (a + ([NEWLINE] + rest))[1..] == a[1..] + ([NEWLINE] + rest);
    }
  }

  /** Chained, but counted from an arbitrary position: the shape the scan recurses on. */
  ghost predicate ChainedFrom(s: Serde, count: nat, root: string, es: seq<Entry>)
    decreases |es|
  {
    es != [] ==>
      && count + 1 <= U64_MAX
      && Follows(s, es[0], count + 1, root)
      && ChainedFrom(s, count + 1, Digest(s, es[0]), es[1..])
  }

  /** The reader parses exactly the writer's line of an entry. */
  lemma ParsedIsLine(s: Serde, bytes: Bytes, e: Entry)
    requires Lawful(s)
    ensures ParseRecord(s.entry, s.readable, bytes) == Some(e) <==>
      bytes == Line(s.entry, e) && Record(s.entry, s.readable, e).Some?
    ensures Record(s.entry, s.readable, e).Some? ==> |Line(s.entry, e)| <= MAX_RECORD_BYTES
  {
    RecordRoundTrip(s.entry, s.readable, e, bytes);
  }

  /** A chain's records are scanned to the chain. */
  lemma {:induction false} ChainScans(s: Serde, count: nat, root: string, es: seq<Entry>)
    requires Lawful(s) && ChainedFrom(s, count, root, es)
    ensures ScanFrom(s, Flatten(s, es), count, root) == Some(es)
    decreases |es|
  {
    hide Lawful, LineLength, ParseRecord, Record, ValidKind;
    if es != [] {
      var e, rest := es[0], Flatten(s, es[1..]);
      var line := Line(s.entry, e);
      assert es == [e] + es[1..];
      FlattenFront(s, e, es[1..]);
      hide Flatten;
      LineIsOneLine(s, e, rest);
      assert (line + rest)[..|line|] == line && (line + rest)[|line|..] == rest;
      ParsedIsLine(s, line, e);
      ChainScans(s, count + 1, Digest(s, e), es[1..]);
    }
  }

  /** Bytes that are scanned to entries are the records of a chain of them. */
  lemma {:induction false} ScanChains(s: Serde, rest: Bytes, count: nat, root: string, es: seq<Entry>)
    requires Lawful(s) && ScanFrom(s, rest, count, root) == Some(es)
    ensures ChainedFrom(s, count, root, es) && rest == Flatten(s, es)
    decreases |rest|
  {
    hide Lawful, LineLength, ParseRecord, Record, ValidKind;
    if rest != [] {
      var n := LineLength(rest);
      var e := ParseRecord(s.entry, s.readable, rest[..n]).value;
      var tail := ScanFrom(s, rest[n..], count + 1, Digest(s, e)).value;
      assert es == [e] + tail && es[1..] == tail;
      ParsedIsLine(s, rest[..n], e);
      ScanChains(s, rest[n..], count + 1, Digest(s, e), tail);
      FlattenFront(s, e, tail);
      hide Flatten;
      assert rest == rest[..n] + rest[n..];
    }
  }

  lemma ScanDecidesChain(s: Serde, rest: Bytes, count: nat, root: string, es: seq<Entry>)
    requires Lawful(s)
    ensures ScanFrom(s, rest, count, root) == Some(es) <==> ChainedFrom(s, count, root, es) && rest == Flatten(s, es)
  {
    hide Lawful, ScanFrom, ChainedFrom, Flatten;
    if ScanFrom(s, rest, count, root) == Some(es) {
      ScanChains(s, rest, count, root, es);
    }
    if ChainedFrom(s, count, root, es) {
      ChainScans(s, count, root, es);
    }
  }

  lemma {:induction false} ChainedFromIsChained(s: Serde, root: string, done: seq<Entry>, es: seq<Entry>)
    requires |done| <= U64_MAX
    requires forall i | 0 <= i < |done| :: Follows(s, (done + es)[i], i + 1, RootAfter(s, root, (done + es)[..i]))
    ensures ChainedFrom(s, |done|, RootAfter(s, root, done), es) <==> Chained(s, root, done + es)
    decreases |es|
  {
    var all := done + es;
    if es == [] {
      assert all == done;
    } else {
      var e := es[0];
      assert all[..|done|] == done && all[|done|] == e;
      var done' := done + [e];
      assert done' + es[1..] == all;
      if Follows(s, e, |done| + 1, RootAfter(s, root, done)) {
        if |done| < U64_MAX {
          ChainedFromIsChained(s, root, done', es[1..]);
        }
      }
    }
  }

  /**
   The scan is exact: it returns these entries if and only if the visible log bytes are
   their canonical lines, they form a dense hash chain from the manifest, and the head
   summarises them.
   */
  lemma VerifyIffCommitted(s: Serde, head: JournalHead, log: Bytes, es: seq<Entry>)
    requires Lawful(s)
    ensures Verify(s, head, log) == Some(es) <==> Committed(s, head, log, es)
  {
    var seen, root := Visible(head, log), head.manifest_sha256;
    var chained := Chained(s, root, es);
    assert ScanFrom(s, seen, 0, root) == Some(es) <==> chained && seen == Flatten(s, es) by {
      ScanDecidesChain(s, seen, 0, root, es);
      ChainedFromIsChained(s, root, [], es);
      assert [] + es == es;
    }
    if chained && HeadNames(s, head, es) && Flatten(s, es) <= log {
      assert seen == Flatten(s, es);
    }
  }

  // ----- tamper evidence

  /** Two different canonical records with the same hash. */
  ghost predicate Collision(s: Serde, a: Entry, b: Entry) {
    s.entry.encode(a) != s.entry.encode(b) && s.sha256(s.entry.encode(a)) == s.sha256(s.entry.encode(b))
  }

  /** Records that pass the writer and are encoded alike are the same entry. */
  lemma SameRecordSameEntry(s: Serde, x: Entry, y: Entry)
    requires Lawful(s) && s.entry.encode(x) == s.entry.encode(y)
    requires Record(s.entry, s.readable, x).Some? && Record(s.entry, s.readable, y).Some?
    ensures x == y
  {
    RecordRoundTrip(s.entry, s.readable, x, Line(s.entry, x));
    RecordRoundTrip(s.entry, s.readable, y, Line(s.entry, y));
  }

  /** The last link of a chain: its hash is the root, and what precedes it is a chain. */
  lemma LastLink(s: Serde, root: string, es: seq<Entry>)
    requires Chained(s, root, es) && es != []
    ensures
      var n := |es| - 1;
      && Chained(s, root, es[..n]) && Record(s.entry, s.readable, es[n]).Some?
      && RootAfter(s, root, es) == Digest(s, es[n]) && es[n].prev == RootAfter(s, root, es[..n])
  {
    var n := |es| - 1;
    assert Follows(s, es[n], n + 1, RootAfter(s, root, es[..n]));
    ChainedPrefix(s, root, es, n);
  }

  lemma {:induction false} SameRootSameBytes(s: Serde, root: string, a: seq<Entry>, b: seq<Entry>)
    requires Lawful(s)
    requires Chained(s, root, a) && Chained(s, root, b) && |a| == |b|
    requires RootAfter(s, root, a) == RootAfter(s, root, b)
    ensures a == b || exists i | 0 <= i < |a| :: Collision(s, a[i], b[i])
    decreases |a|
  {
    hide Lawful, Chained, RootAfter, Record;
    if a != [] {
      var n := |a| - 1;
      LastLink(s, root, a);
      LastLink(s, root, b);
      if s.entry.encode(a[n]) != s.entry.encode(b[n]) {
        assert Collision(s, a[n], b[n]);
      } else {
        SameRecordSameEntry(s, a[n], b[n]);
        SameRootSameBytes(s, root, a[..n], b[..n]);
        if a[..n] != b[..n] {
          var i :| 0 <= i < n && Collision(s, a[..n][i], b[..n][i]);
          assert Collision(s, a[i], b[i]);
        } else {
          assert a == a[..n] + [a[n]] && b == b[..n] + [b[n]];
        }
      }
    }
  }

  lemma ChainedPrefix(s: Serde, root: string, es: seq<Entry>, n: nat)
    requires Chained(s, root, es) && n <= |es|
    ensures Chained(s, root, es[..n])
  {
    forall i | 0 <= i < n ensures Follows(s, es[..n][i], i + 1, RootAfter(s, root, es[..n][..i])) {
      assert es[..n][..i] == es[..i];
      assert Follows(s, es[i], i + 1, RootAfter(s, root, es[..i]));
    }
  }

  /**
   A head pins the history: two log files accepted against one head have byte-identical
   committed prefixes, or two of their records are a hash collision.
   */
  lemma HeadPinsHistory(s: Serde, head: JournalHead, log1: Bytes, log2: Bytes)
    requires Lawful(s)
    requires Verify(s, head, log1).Some? && Verify(s, head, log2).Some?
    ensures
      var a, b := Verify(s, head, log1).value, Verify(s, head, log2).value;
      || (a == b && Visible(head, log1) == Visible(head, log2))
      || (|a| == |b| && exists i | 0 <= i < |a| :: Collision(s, a[i], b[i]))
  {
    var a, b := Verify(s, head, log1).value, Verify(s, head, log2).value;
    VerifyIffCommitted(s, head, log1, a);
    VerifyIffCommitted(s, head, log2, b);
    SameRootSameBytes(s, head.manifest_sha256, a, b);
  }

  // ----- the scan and replay loops

  /**
   The scan as the journal runs it, calling the visitor on each entry as it is accepted.
   `visited` is what the visitor saw, also when the pass is refused half way.
   */
  method Scan(s: Serde, head: JournalHead, log: Bytes) returns (visited: seq<Entry>, accepted: bool)
    ensures accepted <==> Verify(s, head, log).Some?
    ensures accepted ==> visited == Verify(s, head, log).value
  {
    hide ParseRecord, ValidKind, LineLength, Visible, Remains;
    var rest := Visible(head, log);
    var count, root, consumed := 0, head.manifest_sha256, 0;
    visited := [];
    ghost var whole := ScanFrom(s, rest, count, root);
    NothingVisited(whole);
    while rest != []
      invariant count == |visited| && consumed + |rest| == |Visible(head, log)|
      invariant root == RootAfter(s, head.manifest_sha256, visited)
      invariant Remains(whole, visited, ScanFrom(s, rest, count, root))
      decreases |rest|
    {
      AllVisited(whole, visited);
      var n := LineLength(rest);
      if n > MAX_RECORD_BYTES {
        return visited, false;
      }
      consumed := consumed + n;
      var parsed := ParseRecord(s.entry, s.readable, rest[..n]);
      if parsed.None? || count + 1 > U64_MAX {
        return visited, false;
      }
      var entry := parsed.value;
      if entry.seqno != count + 1 || entry.prev != root || !ValidKind(entry.kind) || !entry.body.Object? {
        return visited, false;
      }
      OneVisited(whole, visited, entry, ScanFrom(s, rest[n..], count + 1, Digest(s, entry)));
      count, root := count + 1, Digest(s, entry);
      visited := visited + [entry];
      rest := rest[n..];
    }
    AllVisited(whole, visited);
    accepted := count == head.sequence && root == head.journal_root && consumed == head.journal_bytes;
  }

  /** `ahead` is what is left of the scan `whole` once `visited` have been seen. */
  ghost predicate Remains(whole: Option<seq<Entry>>, visited: seq<Entry>, ahead: Option<seq<Entry>>) {
    if ahead.None? then whole.None? else whole == Some(visited + ahead.value)
  }

  lemma NothingVisited(whole: Option<seq<Entry>>)
    ensures Remains(whole, [], whole)
  {
    if whole.Some? {
      assert [] + whole.value == whole.value;
    }
  }

  lemma OneVisited(whole: Option<seq<Entry>>, visited: seq<Entry>, entry: Entry, ahead: Option<seq<Entry>>)
    requires Remains(whole, visited, if ahead.None? then None else Some([entry] + ahead.value))
    ensures Remains(whole, visited + [entry], ahead)
  {
    if ahead.Some? {
      assert visited + ([entry] + ahead.value) == visited + [entry] + ahead.value;
    }
  }

  lemma AllVisited(whole: Option<seq<Entry>>, visited: seq<Entry>)
    ensures Remains(whole, visited, Some([])) ==> whole == Some(visited)
    ensures Remains(whole, visited, None) ==> whole == None
  {
    assert visited + [] == visited;
  }

  /**
   Replay: a full verification pass, then a visiting pass. The file is read twice, so the
   second reading is a separate argument; nothing is visited unless the first verified.
   */
  method Replay(s: Serde, head: JournalHead, first: Bytes, second: Bytes) returns (visited: seq<Entry>, accepted: bool)
    ensures visited != [] ==> Verify(s, head, first).Some?
    ensures accepted <==> Verify(s, head, first).Some? && Verify(s, head, second).Some?
    ensures accepted ==> visited == Verify(s, head, second).value
  {
    var _, clean := Scan(s, head, first);
    if !clean {
      return [], false;
    }
    visited, accepted := Scan(s, head, second);
  }
}
