/** The scan and the update of public.chat_messages, page by page. */
module Migration {
  import opened Common
  import opened Text
  import opened Normalizer

  datatype Row = Row(createdAt: int, id: int, content: Value)

  datatype Update = Update(id: int, parts: seq<Value>)

  /** The order of the primary scan: by creation time, then by id. */
  predicate Earlier(a: Row, b: Row) {
    a.createdAt < b.createdAt || (a.createdAt == b.createdAt && a.id < b.id)
  }

  ghost predicate Keyed(rows: seq<Row>) {
    && (forall i, j :: 0 <= i < j < |rows| ==> Earlier(rows[i], rows[j]))
    && forall i, j :: 0 <= i < j < |rows| ==> rows[i].id != rows[j].id
  }

  function LaterRows(rows: seq<Row>, after: Option<Row>): seq<Row> {
    if rows == [] then []
    else
      var last := |rows| - 1;
      LaterRows(rows[..last], after) + if after.None? || Earlier(after.value, rows[last]) then [rows[last]] else []
  }

  function Page(rows: seq<Row>, after: Option<Row>, limit: nat): seq<Row> {
    var later := LaterRows(rows, after);
    later[..Min(limit, |later|)]
  }

  /** The key after which `n` rows lie behind. */
  function KeyAt(rows: seq<Row>, n: nat): Option<Row>
    requires n <= |rows|
  {
    if n == 0 then None else Some(rows[n - 1])
  }

  /** No row up to the key is later than it. */
  lemma {:induction false} NoneLaterThanKey(rows: seq<Row>, n: nat, m: nat)
    requires Keyed(rows) && m <= n <= |rows|
    ensures LaterRows(rows[..m], KeyAt(rows, n)) == []
  {
    if m > 0 {
      assert rows[..m][..m - 1] == rows[..m - 1];
      NoneLaterThanKey(rows, n, m - 1);
      assert m < n ==> Earlier(rows[m - 1], rows[n - 1]);
    }
  }

  lemma {:induction false} LaterThanKey(rows: seq<Row>, n: nat, m: nat)
    requires Keyed(rows) && n <= m <= |rows|
    ensures LaterRows(rows[..m], KeyAt(rows, n)) == rows[n..m]
  {
    if m == n {
      NoneLaterThanKey(rows, n, m);
    } else {
      assert rows[..m][..m - 1] == rows[..m - 1];
      LaterThanKey(rows, n, m - 1);
      assert n > 0 ==> Earlier(rows[n - 1], rows[m - 1]);
      assert rows[n..m] == rows[n..m - 1] + [rows[m - 1]];
    }
  }

  /** A page holds the next rows, none only at the end, and its last row is the next key. */
  lemma PageAt(rows: seq<Row>, n: nat, limit: nat) returns (next: nat)
    requires Keyed(rows) && n <= |rows| && limit > 0
    ensures n <= next <= |rows| && (next == n ==> n == |rows|)
    ensures Page(rows, KeyAt(rows, n), limit) == rows[n..next] && |rows[n..next]| == next - n
    ensures next > n ==> KeyAt(rows, next) == Some(rows[n..next][next - n - 1])
  {
    LaterThanKey(rows, n, |rows|);
    assert rows[..|rows|] == rows;
    next := Min(n + limit, |rows|);
  }

  function PendingUpdate(row: Row, codec: Codec): Option<Update> {
    if NeedsUpdate(row.content, codec) then Some(Update(row.id, Normalize(row.content, codec))) else None
  }

  function UpdateOf(codec: Codec): Row -> Option<Update> {
    (r: Row) => PendingUpdate(r, codec)
  }

  /** The updates the scan collects, in key order. */
  function Pending(rows: seq<Row>, codec: Codec): seq<Update> {
    Collect(UpdateOf(codec), rows)
  }

  lemma PendingNext(rows: seq<Row>, codec: Codec, n: nat)
    requires n < |rows|
    ensures Pending(rows[..n + 1], codec) == Pending(rows[..n], codec) + ToSeq(PendingUpdate(rows[n], codec))
  {
    assert rows[..n + 1] == rows[..n] + [rows[n]];
    CollectNext(UpdateOf(codec), rows[..n], rows[n]);
  }

  lemma PendingConcat(rows: seq<Row>, i: nat, j: nat, codec: Codec)
    requires i <= j <= |rows|
    ensures Pending(rows[..j], codec) == Pending(rows[..i], codec) + Pending(rows[i..j], codec)
  {
    assert rows[..j] == rows[..i] + rows[i..j];
    CollectConcat(UpdateOf(codec), rows[..i], rows[i..j]);
  }

  /** The scan has looked at the first `n` rows. */
  ghost predicate Scanned(rows: seq<Row>, n: nat, after: Option<Row>, settled: nat, updates: seq<Update>, codec: Codec)
    requires n <= |rows|
  {
    after == KeyAt(rows, n) && updates == Pending(rows[..n], codec) && settled + |updates| == n
  }

  lemma ScannedNext(rows: seq<Row>, n: nat, next: nat, after: Option<Row>, settled: nat, updates: seq<Update>,
                    untouched: nat, found: seq<Update>, codec: Codec)
    requires n < next <= |rows| && Scanned(rows, n, after, settled, updates, codec)
    requires found == Pending(rows[n..next], codec) && untouched + |found| == next - n
    ensures Scanned(rows, next, KeyAt(rows, next), settled + untouched, updates + found, codec)
  {
    PendingConcat(rows, n, next, codec);
  }

  /** What one update leaves in a row; where its cast raises, nothing. */
  function Written(row: Row, u: Update, jsonb: bool, codec: Codec): Row {
    var stored := Stored(u.parts, jsonb, codec);
    if row.id == u.id && stored.Some? then row.(content := stored.value) else row
  }

  function Write(rows: seq<Row>, u: Update, jsonb: bool, codec: Codec): (r: seq<Row>)
    ensures |r| == |rows|
  {
    seq(|rows|, i requires 0 <= i < |rows| => Written(rows[i], u, jsonb, codec))
  }

  function WriteAll(rows: seq<Row>, us: seq<Update>, jsonb: bool, codec: Codec): seq<Row> {
    if us == [] then rows
    else Write(WriteAll(rows, us[..|us| - 1], jsonb, codec), us[|us| - 1], jsonb, codec)
  }

  lemma WriteAllNext(rows: seq<Row>, us: seq<Update>, k: nat, jsonb: bool, codec: Codec)
    requires k < |us|
    ensures WriteAll(rows, us[..k + 1], jsonb, codec) ==
              Write(WriteAll(rows, us[..k], jsonb, codec), us[k], jsonb, codec)
  {
    assert us[..k + 1][..k] == us[..k];
  }

  lemma {:induction false} WriteAllConcat(rows: seq<Row>, a: seq<Update>, b: seq<Update>, jsonb: bool, codec: Codec)
    ensures WriteAll(rows, a + b, jsonb, codec) == WriteAll(WriteAll(rows, a, jsonb, codec), b, jsonb, codec)
  {
    if b == [] {
      assert a + b == a;
    } else {
      var n := |b| - 1;
      WriteAllConcat(rows, a, b[..n], jsonb, codec);
      assert (a + b)[..|a + b| - 1] == a + b[..n];
    }
  }

  lemma WriteAllExtends(rows: seq<Row>, us: seq<Update>, i: nat, j: nat, jsonb: bool, codec: Codec)
    requires i <= j <= |us|
    ensures WriteAll(rows, us[..j], jsonb, codec) ==
              WriteAll(WriteAll(rows, us[..i], jsonb, codec), us[i..j], jsonb, codec)
  {
    WriteAllConcat(rows, us[..i], us[i..j], jsonb, codec);
    assert us[..i] + us[i..j] == us[..j];
  }

  function Migrated(row: Row, jsonb: bool, codec: Codec): Row {
    if NeedsUpdate(row.content, codec) then Written(row, Update(row.id, Normalize(row.content, codec)), jsonb, codec)
    else row
  }

  function MigratedUpTo(rows: seq<Row>, n: nat, jsonb: bool, codec: Codec): (r: seq<Row>)
    requires n <= |rows|
    ensures |r| == |rows|
  {
    seq(|rows|, i requires 0 <= i < |rows| => if i < n then Migrated(rows[i], jsonb, codec) else rows[i])
  }

  /** Writing what the scan collected changes every pending row once and no other. */
  lemma {:induction false} WritingPending(rows: seq<Row>, n: nat, jsonb: bool, codec: Codec)
    requires Keyed(rows) && n <= |rows|
    ensures WriteAll(rows, Pending(rows[..n], codec), jsonb, codec) == MigratedUpTo(rows, n, jsonb, codec)
  {
    if n > 0 {
      WritingPending(rows, n - 1, jsonb, codec);
      PendingNext(rows, codec, n - 1);
      WritingNext(rows, n - 1, Pending(rows[..n - 1], codec), jsonb, codec);
    } else {
      NoneWritten(rows, jsonb, codec);
    }
  }

  lemma NoneWritten(rows: seq<Row>, jsonb: bool, codec: Codec)
    ensures WriteAll(rows, Pending(rows[..0], codec), jsonb, codec) == MigratedUpTo(rows, 0, jsonb, codec)
  {
    assert Pending(rows[..0], codec) == [] && MigratedUpTo(rows, 0, jsonb, codec) == rows;
  }

  lemma WritingNext(rows: seq<Row>, n: nat, us: seq<Update>, jsonb: bool, codec: Codec)
    requires Keyed(rows) && n < |rows|
    requires WriteAll(rows, us, jsonb, codec) == MigratedUpTo(rows, n, jsonb, codec)
    ensures WriteAll(rows, us + ToSeq(PendingUpdate(rows[n], codec)), jsonb, codec) ==
              MigratedUpTo(rows, n + 1, jsonb, codec)
  {
    if NeedsUpdate(rows[n].content, codec) {
      WriteAllAppend(rows, us, PendingUpdate(rows[n], codec).value, jsonb, codec);
      WritingOne(rows, n, jsonb, codec);
    } else {
      NothingToWrite(rows, n, jsonb, codec);
      assert us + [] == us;
    }
  }

  lemma WriteAllAppend(rows: seq<Row>, us: seq<Update>, u: Update, jsonb: bool, codec: Codec)
    ensures WriteAll(rows, us + [u], jsonb, codec) == Write(WriteAll(rows, us, jsonb, codec), u, jsonb, codec)
  {
    assert (us + [u])[..|us|] == us;
  }

  lemma NothingToWrite(rows: seq<Row>, n: nat, jsonb: bool, codec: Codec)
    requires n < |rows| && !NeedsUpdate(rows[n].content, codec)
    ensures MigratedUpTo(rows, n + 1, jsonb, codec) == MigratedUpTo(rows, n, jsonb, codec)
  {
  }

  lemma WritingOne(rows: seq<Row>, n: nat, jsonb: bool, codec: Codec)
    requires Keyed(rows) && n < |rows| && NeedsUpdate(rows[n].content, codec)
    ensures Write(MigratedUpTo(rows, n, jsonb, codec), PendingUpdate(rows[n], codec).value, jsonb, codec) ==
              MigratedUpTo(rows, n + 1, jsonb, codec)
  {
    var u := PendingUpdate(rows[n], codec).value;
    var before, after := MigratedUpTo(rows, n, jsonb, codec), MigratedUpTo(rows, n + 1, jsonb, codec);
    forall i | 0 <= i < |rows|
      ensures Written(before[i], u, jsonb, codec) == after[i]
    {
      assert before[i].id == rows[i].id;
      assert i != n ==> rows[i].id != rows[n].id;
    }
  }

  /** content::jsonb; None when the statement fails. */
  function Cast(v: Value, codec: Codec): Option<Value> {
    if v.Str? then codec.cast(v.text) else if v.Null? then Some(v) else None
  }

  predicate AllCast(rows: seq<Row>, codec: Codec) {
    forall i :: 0 <= i < |rows| ==> Cast(rows[i].content, codec).Some?
  }

  function Converted(rows: seq<Row>, codec: Codec): (r: seq<Row>)
    requires AllCast(rows, codec)
    ensures |r| == |rows|
  {
    seq(|rows|, i requires 0 <= i < |rows| => rows[i].(content := Cast(rows[i].content, codec).value))
  }

  predicate Storable(u: Update, jsonb: bool, codec: Codec) {
    Stored(u.parts, jsonb, codec).Some?
  }

  /** Every update can be written into the column. */
  predicate AllStorable(us: seq<Update>, jsonb: bool, codec: Codec) {
    forall i :: 0 <= i < |us| ==> Storable(us[i], jsonb, codec)
  }

  lemma AllStorableAppend(a: seq<Update>, b: seq<Update>, jsonb: bool, codec: Codec)
    ensures AllStorable(a + b, jsonb, codec) <==> AllStorable(a, jsonb, codec) && AllStorable(b, jsonb, codec)
  {
    assert forall i :: 0 <= i < |a| ==> (a + b)[i] == a[i];
    assert forall i :: 0 <= i < |b| ==> (a + b)[|a| + i] == b[i];
  }

  /** The script gets through with this row: PostgreSQL takes its parts where they are written, and its text
    * where the column is converted. */
  predicate GetsThrough(row: Row, jsonb: bool, codec: Codec) {
    if NeedsUpdate(row.content, codec) then Castable(Normalize(row.content, codec), codec)
    else jsonb || Cast(row.content, codec).Some?
  }

  predicate AllPass(rows: seq<Row>, jsonb: bool, codec: Codec) {
    forall i :: 0 <= i < |rows| ==> GetsThrough(rows[i], jsonb, codec)
  }

  lemma AllPassNext(rows: seq<Row>, row: Row, jsonb: bool, codec: Codec)
    ensures AllPass(rows + [row], jsonb, codec) <==> AllPass(rows, jsonb, codec) && GetsThrough(row, jsonb, codec)
  {
    assert forall i :: 0 <= i < |rows| ==> (rows + [row])[i] == rows[i];
    assert (rows + [row])[|rows|] == row;
  }

  lemma PendingStorableIff(row: Row, codec: Codec)
    ensures AllStorable(ToSeq(PendingUpdate(row, codec)), true, codec) <==> GetsThrough(row, true, codec)
  {
    var us := ToSeq(PendingUpdate(row, codec));
    if us != [] {
      assert Storable(us[0], true, codec) <==> GetsThrough(row, true, codec);
    }
  }

  lemma {:induction false} StorableIff(rows: seq<Row>, codec: Codec)
    ensures AllStorable(Pending(rows, codec), true, codec) <==> AllPass(rows, true, codec)
  {
    if rows != [] {
      var before, last := rows[..|rows| - 1], rows[|rows| - 1];
      assert rows == before + [last];
      StorableIff(before, codec);
      StorableNext(before, last, codec);
    }
  }

  lemma StorableNext(before: seq<Row>, last: Row, codec: Codec)
    requires AllStorable(Pending(before, codec), true, codec) <==> AllPass(before, true, codec)
    ensures AllStorable(Pending(before + [last], codec), true, codec) <==> AllPass(before + [last], true, codec)
  {
    CollectNext(UpdateOf(codec), before, last);
    AllStorableAppend(Pending(before, codec), ToSeq(PendingUpdate(last, codec)), true, codec);
    PendingStorableIff(last, codec);
    AllPassNext(before, last, true, codec);
  }

  /** The body of the scan loop for one page. */
  method ScanPage(page: seq<Row>, codec: Codec) returns (settled: nat, updates: seq<Update>)
    ensures updates == Pending(page, codec) && settled + |updates| == |page|
  {
    settled, updates := 0, [];
    for k := 0 to |page|
      invariant updates == Pending(page[..k], codec) && settled + |updates| == k
    {
      PendingNext(page, codec, k);
      var u := PendingUpdate(page[k], codec);
      if u.Some? {
        updates := updates + [u.value];
      } else {
        settled := settled + 1;
      }
    }
    assert page[..|page|] == page;
  }

  /** One turn of the scan loop: a page, or the end. */
  method ScanStep(rows: seq<Row>, n: nat, limit: nat, after: Option<Row>, settled: nat, updates: seq<Update>,
                  codec: Codec)
    returns (more: bool, n': nat, after': Option<Row>, settled': nat, updates': seq<Update>)
    requires Keyed(rows) && n <= |rows| && limit > 0 && Scanned(rows, n, after, settled, updates, codec)
    ensures n' <= |rows| && Scanned(rows, n', after', settled', updates', codec)
    ensures if more then n' > n else n' == n == |rows|
  {
    var page := Page(rows, after, limit);
    ghost var next := PageAt(rows, n, limit);
    if page == [] {
      return false, n, after, settled, updates;
    }
    var untouched, found := ScanPage(page, codec);
    ScannedNext(rows, n, next, after, settled, updates, untouched, found, codec);
    more, n', after' := true, n + |page|, Some(page[|page| - 1]);
    settled', updates' := settled + untouched, updates + found;
    assert n' == next && after' == KeyAt(rows, next);
  }

  class ChatMessages {
    var rows: seq<Row>
    var jsonb: bool

    ghost predicate Valid()
      reads this
    {
      && Keyed(rows)
      && (!jsonb ==> forall i :: 0 <= i < |rows| ==> rows[i].content.Str? || rows[i].content.Null?)
    }

    /** The scan: keyset pagination, every row looked at once. */
    method Scan(batchSize: int, codec: Codec) returns (scanned: nat, settled: nat, updates: seq<Update>)
      requires Valid()
      ensures scanned == |rows| && updates == Pending(rows, codec) && settled + |updates| == scanned
    {
      scanned, settled, updates := 0, 0, [];
      var after: Option<Row> := None;
      var limit := Max(1, batchSize);
      var more := true;
      while more
        invariant scanned <= |rows| && Scanned(rows, scanned, after, settled, updates, codec)
        invariant !more ==> scanned == |rows|
        decreases |rows| - scanned, more
      {
        more, scanned, after, settled, updates := ScanStep(rows, scanned, limit, after, settled, updates, codec);
      }
      assert rows[..scanned] == rows;
    }

    /** The update loop over chunks, in one transaction: where a cast raises, nothing is written. */
    method Apply(updates: seq<Update>, batchSize: int, codec: Codec) returns (ok: bool)
      modifies this`rows
      ensures ok <==> AllStorable(updates, jsonb, codec)
      ensures rows == if ok then WriteAll(old(rows), updates, jsonb, codec) else old(rows)
    {
      var before := rows;
      var chunkSize := Max(1, Min(batchSize, 1000));
      var start := 0;
      while start < |updates|
        invariant 0 <= start <= |updates| && AllStorable(updates[..start], jsonb, codec)
        invariant rows == WriteAll(before, updates[..start], jsonb, codec)
      {
        var next := Min(start + chunkSize, |updates|);
        WriteAllExtends(before, updates, start, next, jsonb, codec);
        StorableExtends(updates, start, next, jsonb, codec);
        ok := ApplyChunk(updates[start..next], codec);
        if !ok {
          rows := before;
          return;
        }
        start := next;
      }
      assert updates[..start] == updates;
      ok := true;
    }

    method ApplyChunk(chunk: seq<Update>, codec: Codec) returns (ok: bool)
      modifies this`rows
      ensures ok <==> AllStorable(chunk, jsonb, codec)
      ensures ok ==> rows == WriteAll(old(rows), chunk, jsonb, codec)
    {
      for k := 0 to |chunk|
        invariant rows == WriteAll(old(rows), chunk[..k], jsonb, codec)
        invariant AllStorable(chunk[..k], jsonb, codec)
      {
        StorableExtends(chunk, k, k + 1, jsonb, codec);
        assert chunk[k..k + 1] == [chunk[k]];
        if !Storable(chunk[k], jsonb, codec) {
          return false;
        }
        WriteAllNext(old(rows), chunk, k, jsonb, codec);
        rows := Write(rows, chunk[k], jsonb, codec);
      }
      assert chunk[..|chunk|] == chunk;
      ok := true;
    }

    /** ALTER COLUMN content TYPE jsonb */
    method Convert(codec: Codec) returns (ok: bool)
      modifies this
      ensures ok <==> AllCast(old(rows), codec)
      ensures !ok ==> rows == old(rows) && jsonb == old(jsonb)
      ensures ok ==> jsonb && rows == Converted(old(rows), codec)
    {
      ok := AllCast(rows, codec);
      if ok {
        jsonb := true;
        rows := Converted(rows, codec);
      }
    }

    /** The whole script with --apply; `ok` is false when it raises. It gets through exactly if PostgreSQL takes
      * every text that is written or converted. Then every row that reads back as it was sent holds its
      * normalised parts and a later scan leaves it alone; only a JSON string in a jsonb column that already
      * decodes to parts stays a string. Otherwise a jsonb column is as before, and a text column holds the
      * updated texts. */
    method Migrate(batchSize: int, codec: Codec) returns (ok: bool)
      requires Valid()
      modifies this
      ensures ok <==> AllPass(old(rows), old(jsonb), codec)
      ensures !ok ==>
                jsonb == old(jsonb)
                && rows == if jsonb then old(rows) else MigratedUpTo(old(rows), |old(rows)|, false, codec)
      ensures |rows| == |old(rows)| && (ok ==> jsonb)
      ensures ok ==> EndSettled(old(rows), rows, old(jsonb), codec)
    {
      ghost var before := rows;
      var scanned, settled, updates := Scan(batchSize, codec);
      StorableIff(before, codec);
      ok := true;
      if updates != [] {
        ok := Apply(updates, batchSize, codec);
        if !ok {
          return;
        }
      }
      assert before[..|before|] == before;
      WritingPending(before, |before|, jsonb, codec);
      assert rows == MigratedUpTo(before, |before|, jsonb, codec);
      if !jsonb {
        ok := ConvertMigrated(before, codec);
      } else {
        JsonbFinished(before, codec);
        AllEndSettled(before, rows, true, codec);
      }
    }

    method ConvertMigrated(ghost before: seq<Row>, codec: Codec) returns (ok: bool)
      requires Keyed(before) && !jsonb && rows == MigratedUpTo(before, |before|, false, codec)
      requires forall i :: 0 <= i < |before| ==> before[i].content.Str? || before[i].content.Null?
      modifies this
      ensures ok <==> AllPass(before, false, codec)
      ensures !ok ==> rows == old(rows) && !jsonb
      ensures ok ==> jsonb && EndSettled(before, rows, false, codec)
    {
      AllFinishIff(before, codec);
      ok := Convert(codec);
      if ok {
        TextFinished(before, codec);
        AllEndSettled(before, rows, false, codec);
      }
    }
  }

  lemma JsonbFinished(before: seq<Row>, codec: Codec)
    ensures Finish(before, MigratedUpTo(before, |before|, true, codec), true, codec)
  {
  }

  lemma TextFinished(before: seq<Row>, codec: Codec)
    requires AllCast(MigratedUpTo(before, |before|, false, codec), codec)
    ensures Finish(before, Converted(MigratedUpTo(before, |before|, false, codec), codec), false, codec)
  {
    var after := MigratedUpTo(before, |before|, false, codec);
    forall i | 0 <= i < |before|
      ensures Finished(before[i], false, codec) == Some(Converted(after, codec)[i])
    {
      assert after[i] == Migrated(before[i], false, codec);
    }
  }

  /** PostgreSQL, if it takes the text that is sent for this row, reads in it what Python does. */
  predicate ReadsBack(row: Row, jsonb: bool, codec: Codec) {
    var parts := List(Normalize(row.content, codec));
    if NeedsUpdate(row.content, codec) then ReadsAs(codec.dumps(parts), parts, codec)
    else !jsonb && row.content.Str? ==> ReadsAs(row.content.text, parts, codec)
  }

  predicate ReadsAs(s: string, v: Value, codec: Codec) {
    codec.cast(s).Some? ==> Equal(codec.cast(s).value, v, codec)
  }

  /** What the script leaves of a row when it gets through. */
  predicate EndsSettled(was: Row, now: Row, jsonb: bool, codec: Codec) {
    && now == was.(content := now.content)
    && Equal(Decode(now.content, codec), List(Normalize(was.content, codec)), codec)
    && !NeedsUpdate(now.content, codec)
    && (!now.content.List? ==> jsonb && was.content.Str? && !NeedsUpdate(was.content, codec) && now == was)
  }

  /** A row after the updates and, for a text column, after the conversion. */
  function Finished(was: Row, jsonb: bool, codec: Codec): Option<Row> {
    var now := Migrated(was, jsonb, codec);
    if jsonb then Some(now)
    else if Cast(now.content, codec).Some? then Some(now.(content := Cast(now.content, codec).value))
    else None
  }

  /** `now` is what the script leaves of `before`. */
  ghost predicate Finish(before: seq<Row>, now: seq<Row>, jsonb: bool, codec: Codec) {
    |now| == |before| && forall i :: 0 <= i < |before| ==> Finished(before[i], jsonb, codec) == Some(now[i])
  }

  ghost predicate EndSettled(before: seq<Row>, now: seq<Row>, jsonb: bool, codec: Codec) {
    && |now| == |before|
    && forall i :: 0 <= i < |before| && ReadsBack(before[i], jsonb, codec) ==>
         EndsSettled(before[i], now[i], jsonb, codec)
  }

  /** The script gets through exactly if the column can be converted after the updates. */
  lemma AllFinishIff(before: seq<Row>, codec: Codec)
    requires forall i :: 0 <= i < |before| ==> before[i].content.Str? || before[i].content.Null?
    ensures AllPass(before, false, codec) <==> AllCast(MigratedUpTo(before, |before|, false, codec), codec)
  {
    var after := MigratedUpTo(before, |before|, false, codec);
    forall i | 0 <= i < |before|
      ensures GetsThrough(before[i], false, codec) <==> Cast(after[i].content, codec).Some?
    {
      assert after[i] == Migrated(before[i], false, codec);
      RowEndsSettled(before[i], false, codec);
    }
  }

  /** The rows as the script leaves them when it gets through. */
  lemma AllEndSettled(before: seq<Row>, now: seq<Row>, jsonb: bool, codec: Codec)
    requires !jsonb ==> forall i :: 0 <= i < |before| ==> before[i].content.Str? || before[i].content.Null?
    requires AllPass(before, jsonb, codec) && Finish(before, now, jsonb, codec)
    ensures EndSettled(before, now, jsonb, codec)
  {
    forall i | 0 <= i < |before| && ReadsBack(before[i], jsonb, codec)
      ensures EndsSettled(before[i], now[i], jsonb, codec)
    {
      assert GetsThrough(before[i], jsonb, codec);
      RowEndsSettled(before[i], jsonb, codec);
    }
  }

  lemma RowEndsSettled(was: Row, jsonb: bool, codec: Codec)
    requires !jsonb ==> was.content.Str? || was.content.Null?
    ensures !jsonb ==> (GetsThrough(was, false, codec) <==> Finished(was, false, codec).Some?)
    ensures GetsThrough(was, jsonb, codec) && ReadsBack(was, jsonb, codec) ==>
              EndsSettled(was, Finished(was, jsonb, codec).value, jsonb, codec)
  {
    NeedsUpdateIff(was.content, codec);
    if GetsThrough(was, jsonb, codec) && ReadsBack(was, jsonb, codec) {
      var now := Finished(was, jsonb, codec).value;
      if !NeedsUpdate(was.content, codec) && jsonb {
        EqualToItself(List(Normalize(was.content, codec)), codec);
      }
      StoredIsSettled(was.content, now.content, codec);
    }
  }

  lemma StorableExtends(us: seq<Update>, i: nat, j: nat, jsonb: bool, codec: Codec)
    requires i <= j <= |us|
    ensures AllStorable(us[..j], jsonb, codec) <==>
              AllStorable(us[..i], jsonb, codec) && AllStorable(us[i..j], jsonb, codec)
    ensures AllStorable(us, jsonb, codec) ==> AllStorable(us[..j], jsonb, codec)
  {
    assert us[..j] == us[..i] + us[i..j] && us == us[..j] + us[j..];
    AllStorableAppend(us[..i], us[i..j], jsonb, codec);
    AllStorableAppend(us[..j], us[j..], jsonb, codec);
  }
}
