/**
 The data cache simulator (dcache.c:30-119, dcache.c:181-334): a set-associative cache of line
 tags with a round-robin or a nearly periodic replacement policy.

 Shifts and masks of the unsigned address are written as division and remainder by powers of
 two. Address tracing is not modelled.
 */
module Dcache {

  // ----- powers of two

  function Pow2(n: nat): (p: nat)
    ensures p >= 1
  {
    if n == 0 then 1 else 2 * Pow2(n - 1)
  }

  /** log2_roundup: the least exponent whose power reaches num. */
  method Log2Roundup(num: int) returns (exp: nat)
    ensures num <= Pow2(exp) && (exp > 0 ==> Pow2(exp - 1) < num)
  {
    exp := 0;
    var power2 := 1;
    while power2 < num
      invariant power2 == Pow2(exp) && (exp > 0 ==> Pow2(exp - 1) < num)
      decreases num - power2
    {
      power2 := 2 * power2;
      exp := exp + 1;
    }
  }

  lemma {:induction false} Pow2Adds(a: nat, b: nat)
    ensures Pow2(a + b) == Pow2(a) * Pow2(b)
  {
    if a > 0 { Pow2Adds(a - 1, b); }
  }

  // ----- rows

  /** What an unused way holds: all ones. */
  const Invalid := 0xffff_ffff

  type Row = seq<int>

  /** A row of the table holds only lines that map to it, each once. */
  ghost predicate RowOk(row: Row, r: nat, rows: nat)
    requires rows > 0
  {
    && (forall w :: 0 <= w < |row| ==> row[w] == Invalid || row[w] % rows == r)
    && (forall v, w :: 0 <= v < w < |row| && row[v] == row[w] ==> row[v] == Invalid)
  }

  ghost predicate TableOk(table: seq<Row>, ways: nat) {
    |table| > 0 && forall r :: 0 <= r < |table| ==> |table[r]| == ways && RowOk(table[r], r, |table|)
  }

  /** The line is somewhere in the cache. */
  ghost predicate Resident(table: seq<Row>, line: nat) { exists r :: 0 <= r < |table| && line in table[r] }

  /** Searching the line's own row is searching the whole cache. */
  lemma {:induction false} OneRowIsEnough(table: seq<Row>, ways: nat, line: nat)
    requires TableOk(table, ways) && line != Invalid
    ensures Resident(table, line) <==> line in table[line % |table|]
  {
    if Resident(table, line) {
      var r :| 0 <= r < |table| && line in table[r];
      assert RowOk(table[r], r, |table|);
      var w :| 0 <= w < |table[r]| && table[r][w] == line;
    }
  }

  /** No line is resident twice. */
  lemma {:induction false} OnceOnly(table: seq<Row>, ways: nat, r: nat, v: nat, s: nat, w: nat)
    requires TableOk(table, ways) && r < |table| && s < |table| && v < ways && w < ways
    requires table[r][v] == table[s][w] != Invalid
    ensures r == s && v == w
  {
    assert RowOk(table[r], r, |table|) && RowOk(table[s], s, |table|);
  }

  lemma {:induction false} ReplaceOk(table: seq<Row>, ways: nat, line: nat, way: nat)
    requires TableOk(table, ways) && way < ways && line !in table[line % |table|]
    ensures var r := line % |table|; TableOk(table[r := table[r][way := line]], ways)
  {
    var r := line % |table|;
    var table' := table[r := table[r][way := line]];
    forall s | 0 <= s < |table'| ensures |table'[s]| == ways && RowOk(table'[s], s, |table'|) {
      assert RowOk(table[s], s, |table|);
      if s == r { assert forall w :: 0 <= w < ways ==> table[r][w] != line; }
    }
  }

  // ----- round robin

  /** After the misses, in order, way j % ways holds the latest miss with that remainder. */
  ghost predicate RowHistory(row: Row, misses: seq<nat>) {
    && (forall j :: 0 <= j < |misses| && |misses| - |row| <= j ==> |row| > 0 && row[j % |row|] == misses[j])
    && (forall w :: |misses| <= w < |row| ==> row[w] == Invalid)
  }

  lemma {:induction false} RowHistoryStep(row: Row, misses: seq<nat>, line: nat)
    requires RowHistory(row, misses) && |row| > 0
    ensures RowHistory(row[|misses| % |row| := line], misses + [line])
  {
    var (n, k) := (|row|, |misses|);
    var row' := row[k % n := line];
    forall j | 0 <= j < k + 1 && k + 1 - n <= j ensures row'[j % n] == (misses + [line])[j] {
      if j < k { DifferentWays(j, k, n); }
    }
    forall w | k + 1 <= w < n ensures row'[w] == Invalid { SmallMod(k, n); }
  }

  lemma {:induction false} SmallMod(k: nat, n: nat)
    requires k < n
    ensures k % n == k
  {}

  /** Fewer than n misses apart, two misses go to different ways. */
  lemma {:induction false} DifferentWays(j: nat, k: nat, n: nat)
    requires 0 < n && j < k < j + n
    ensures j % n != k % n
  {
    var (qj, qk) := (j / n, k / n);
    assert j == n * qj + j % n && k == n * qk + k % n;
    if j % n == k % n {
      assert k - j == n * (qk - qj);
      if qk - qj >= 1 { Times(n, qk - qj); } else if qk - qj <= -1 { Times(n, qj - qk); }
    }
  }

  lemma {:induction false} Times(n: nat, q: int)
    requires q >= 1
    ensures n * q >= n
  {}

  /** A row holds exactly its last misses, as many as it has ways. */
  lemma {:induction false} RowIsLastMisses(row: Row, misses: seq<nat>, line: nat)
    requires RowHistory(row, misses) && |row| > 0 && line != Invalid
    ensures line in row <==> exists j :: 0 <= j < |misses| && |misses| - |row| <= j && misses[j] == line
  {
    var (n, k) := (|row|, |misses|);
    if line in row {
      var w :| 0 <= w < n && row[w] == line;
      if w < k {
        var j := LatestAt(w, k, n);
        assert misses[j] == row[j % n];
      }
    }
  }

  /** The latest of k misses that went to way w. */
  lemma {:induction false} LatestAt(w: nat, k: nat, n: nat) returns (j: nat)
    requires w < n && w < k
    ensures j < k && k - n <= j && j % n == w
    decreases k
  {
    if w == (k - 1) % n {
      j := k - 1;
    } else if k - 1 <= w {
      SmallMod(w, n);
      j := w;
    } else {
      j := LatestAt(w, k - 1, n);
      if j == k - 1 - n {
        assert (j + n) % n == j % n by { ModPlus(j, n); }
      }
    }
  }

  lemma {:induction false} ModPlus(j: nat, n: nat)
    requires n > 0
    ensures (j + n) % n == j % n
  {
    assert j == n * (j / n) + j % n;
    ModUnique(j + n, n, j / n + 1, j % n);
  }

  lemma {:induction false} ModUnique(x: nat, n: nat, q: int, r: nat)
    requires r < n && x == n * q + r
    ensures x % n == r
  {
    var (q', r') := (x / n, x % n);
    assert x == n * q' + r';
    assert n * (q - q') == r' - r;
    if q > q' { Times(n, q - q'); } else if q < q' { Times(n, q' - q); }
  }

  // ----- the other policy

  /** One step of a counter below n. */
  function Bump(x: nat, n: nat): nat { if x + 1 >= n then 0 else x + 1 }

  lemma {:induction false} BumpIsMod(a: nat, n: nat)
    requires n > 0
    ensures Bump(a % n, n) == (a + 1) % n
  {
    var (q, r) := (a / n, a % n);
    assert a == n * q + r;
    if r + 1 >= n {
      assert a + 1 == n * (q + 1) + 0;
      ModUnique(a + 1, n, q + 1, 0);
    } else {
      ModUnique(a + 1, n, q, r + 1);
    }
  }

  /** The way that follows k misses: one step for each, and one more for every thirteenth. */
  function WayAfter(k: nat, ways: nat): nat
    requires ways > 0
  {
    (k + k / 13) % ways
  }

  lemma {:induction false} WayStep(k: nat, ways: nat)
    requires ways > 0
    ensures WayAfter(k + 1, ways) ==
            if (k + 1) % 13 == 0 then Bump(Bump(WayAfter(k, ways), ways), ways) else Bump(WayAfter(k, ways), ways)
  {
    var a := k + k / 13;
    BumpIsMod(a, ways);
    BumpIsMod(a + 1, ways);
    assert (k + 1) + (k + 1) / 13 == if (k + 1) % 13 == 0 then a + 2 else a + 1;
  }

  // ----- the simulator

  /** Simulated time spent on misses. */
  function Elapsed(loads: nat, loadPenalty: int, stores: nat, storePenalty: int): int {
    loads * loadPenalty + stores * storePenalty
  }

  lemma {:induction false} TimeStep(loads: nat, loadPenalty: int, stores: nat, storePenalty: int)
    ensures Elapsed(loads + 1, loadPenalty, stores, storePenalty)
         == Elapsed(loads, loadPenalty, stores, storePenalty) + loadPenalty
    ensures Elapsed(loads, loadPenalty, stores + 1, storePenalty)
         == Elapsed(loads, loadPenalty, stores, storePenalty) + storePenalty
  {}

  class Cache {
    const lineSize: nat
    const ways: nat
    const rows: nat
    const roundRobin: bool
    const loadPenalty: int
    const storePenalty: int
    var table: seq<Row>
    var replace: seq<nat>
    var nextWay: nat
    var extra: nat               // extra_increment_counter
    var loadHits: nat
    var loadMisses: nat
    var storeHits: nat
    var storeMisses: nat
    var simTime: int
    ghost var start: int
    ghost var misses: seq<seq<nat>>  // the lines each row missed on, in order

    ghost predicate Valid()
      reads this
    {
      && lineSize > 0 && ways > 0 && rows == |table| == |replace| == |misses|
      && TableOk(table, ways)
      && (roundRobin ==>
            forall r :: 0 <= r < rows ==> RowHistory(table[r], misses[r]) && replace[r] == |misses[r]| % ways)
      && (!roundRobin ==> nextWay == WayAfter(loadMisses, ways) && extra == loadMisses % 13)
      && nextWay < ways
      && simTime == start + Elapsed(loadMisses, loadPenalty, storeMisses, storePenalty)
    }

    /** The state dcache_init sets up, from the logarithms of its parameters. */
    constructor (logLine: nat, logWays: nat, logRows: nat, roundRobin: bool, loadPenalty: int, storePenalty: int,
                 simTime: int)
      ensures Valid() && lineSize == Pow2(logLine) && ways == Pow2(logWays) && rows == Pow2(logRows)
      ensures loadHits == loadMisses == storeHits == storeMisses == 0 && table == Blank(rows, ways)
      ensures this.roundRobin == roundRobin && this.loadPenalty == loadPenalty && this.storePenalty == storePenalty
      ensures this.simTime == simTime && forall r :: 0 <= r < rows ==> misses[r] == []
    {
      lineSize, ways, rows := Pow2(logLine), Pow2(logWays), Pow2(logRows);
      this.roundRobin, this.loadPenalty, this.storePenalty := roundRobin, loadPenalty, storePenalty;
      table := Blank(Pow2(logRows), Pow2(logWays));
      replace := seq(Pow2(logRows), _ => 0);
      misses := seq(Pow2(logRows), _ => []);
      nextWay, extra := 0, 0;
      loadHits, loadMisses, storeHits, storeMisses := 0, 0, 0, 0;
      this.simTime, start := simTime, simTime;
      new;
      BlankOk(rows, ways);
      hide TableOk, Pow2, Blank;
    }

    /** The line an address is on. */
    function Line(addr: nat): nat
      requires lineSize > 0
    {
      addr / lineSize
    }

    /** The search loop of dcache_load and dcache_store. */
    method Search(line: nat) returns (hit: bool)
      requires Valid()
      ensures hit <==> line in table[line % rows]
    {
      var row := table[line % rows];
      assert |row| == ways;
      for i := 0 to ways
        invariant forall k :: 0 <= k < i ==> row[k] != line
      {
        if line == row[i] { return true; }
      }
      hit := false;
    }

    /** The choice of the way to replace. */
    method PickWay(row: nat) returns (way: nat)
      requires Valid() && row < rows
      modifies this`replace, this`nextWay, this`extra
      ensures way < ways && nextWay < ways
      ensures roundRobin ==> way == |misses[row]| % ways && replace == old(replace)[row := (|misses[row]| + 1) % ways]
      ensures roundRobin ==> nextWay == old(nextWay) && extra == old(extra)
      ensures !roundRobin ==> way == WayAfter(loadMisses, ways) && replace == old(replace)
      ensures !roundRobin ==> nextWay == WayAfter(loadMisses + 1, ways) && extra == (loadMisses + 1) % 13
    {
      hide TableOk, RowHistory, WayAfter;
      if roundRobin {
        way := replace[row];
        var next := way + 1;
        BumpIsMod(|misses[row]|, ways);
        if next == ways { next := 0; }
        replace := replace[row := next];
      } else {
        way := nextWay;
        WayStep(loadMisses, ways);
        nextWay := nextWay + 1;
        if nextWay >= ways { nextWay := 0; }
        extra := extra + 1;
        if extra == 13 {
          extra := 0;
          nextWay := nextWay + 1;
          if nextWay >= ways { nextWay := 0; }
        }
      }
    }

    /** dcache_load: a miss puts the line in its row and moves the replacement on. */
    method Load(addr: nat) returns (hit: bool, way: nat)
      requires Valid()
      modifies this
      ensures Valid() && Line(addr) in table[Line(addr) % rows]
      ensures hit <==> Line(addr) in old(table)[Line(addr) % rows]
      ensures loadHits == old(loadHits) + (if hit then 1 else 0) && loadMisses == old(loadMisses) + if hit then 0 else 1
      ensures storeHits == old(storeHits) && storeMisses == old(storeMisses) && start == old(start)
      ensures hit ==> table == old(table) && misses == old(misses)
      ensures !hit ==> Missed(old(table), table, old(misses), misses, Line(addr), way)
      ensures !hit && !roundRobin ==> way == WayAfter(old(loadMisses), ways)
      ensures !hit && roundRobin ==> way == |old(misses)[Line(addr) % rows]| % ways
    {
      var line := Line(addr);
      way := 0;
      hit := Search(line);
      TimeStep(loadMisses, loadPenalty, storeMisses, storePenalty);
      hide Elapsed, Missed;
      if hit {
        hide TableOk, RowHistory, WayAfter;
        loadHits := loadHits + 1;
        return;
      }
      var row := line % rows;
      way := PickWay(row);
      LoadMissed(table, misses, ways, roundRobin, line, way);
      hide TableOk, RowHistory, WayAfter;
      loadMisses := loadMisses + 1;
      simTime := simTime + loadPenalty;
      table := table[row := table[row][way := line]];
      misses := misses[row := misses[row] + [line]];
    }

    /** dcache_store: no line is brought in. */
    method Store(addr: nat) returns (hit: bool)
      requires Valid()
      modifies this`storeHits, this`storeMisses, this`simTime
      ensures Valid() && (hit <==> Line(addr) in table[Line(addr) % rows])
      ensures storeHits == old(storeHits) + (if hit then 1 else 0)
      ensures storeMisses == old(storeMisses) + if hit then 0 else 1
    {
      hit := Search(Line(addr));
      TimeStep(loadMisses, loadPenalty, storeMisses, storePenalty);
      hide TableOk, RowHistory, WayAfter, Elapsed;
      if hit {
        storeHits := storeHits + 1;
      } else {
        storeMisses := storeMisses + 1;
        simTime := simTime + storePenalty;
      }
    }

    /** dcache_swp: its store always hits. */
    method Swp(addr: nat) returns (hit: bool)
      requires Valid()
      modifies this
      ensures Valid() && storeHits == old(storeHits) + 1 && storeMisses == old(storeMisses)
      ensures loadHits + loadMisses == old(loadHits) + old(loadMisses) + 1
    {
      hide TableOk, RowHistory, WayAfter, Missed;
      var way;
      hit, way := Load(addr);
      var stored := Store(addr);
    }
  }

  /** A miss changes one way of one row, and that row's history. */
  ghost predicate Missed(table: seq<Row>, table': seq<Row>, misses: seq<seq<nat>>, misses': seq<seq<nat>>, line: nat,
                         way: nat) {
    && 0 < |table| == |misses|
    && var r := line % |table|;
       && way < |table[r]| && table' == table[r := table[r][way := line]]
       && misses' == misses[r := misses[r] + [line]]
  }

  lemma {:induction false} LoadMissed(table: seq<Row>, misses: seq<seq<nat>>, ways: nat, roundRobin: bool, line: nat,
                                      way: nat)
    requires TableOk(table, ways) && |misses| == |table| && way < ways && line !in table[line % |table|]
    requires roundRobin ==> forall r :: 0 <= r < |table| ==> RowHistory(table[r], misses[r])
    requires roundRobin ==> way == |misses[line % |table|]| % ways
    ensures var r := line % |table|;
            var (table', misses') := (table[r := table[r][way := line]], misses[r := misses[r] + [line]]);
            TableOk(table', ways) && Missed(table, table', misses, misses', line, way) && line in table'[r] &&
            (roundRobin ==> forall q :: 0 <= q < |table'| ==> RowHistory(table'[q], misses'[q]))
  {
    var r := line % |table|;
    ReplaceOk(table, ways, line, way);
    assert |table[r]| == ways;
    assert table[r][way := line][way] == line;
    if roundRobin { RowHistoryStep(table[r], misses[r], line); }
    hide TableOk, RowHistory;
  }

  /** With lines of two bytes or more, no address is on the line that marks an unused way. */
  lemma {:induction false} LineIsValid(addr: nat, lineSize: nat)
    requires addr < 0x1_0000_0000 && lineSize >= 1
    ensures addr / lineSize == Invalid <==> lineSize == 1 && addr == Invalid
  {
    if lineSize >= 2 {
      var q := addr / lineSize;
      assert addr == lineSize * q + addr % lineSize;
      TwiceAtMost(lineSize, q);
    }
  }

  lemma {:induction false} TwiceAtMost(n: nat, q: nat)
    requires n >= 2
    ensures 2 * q <= n * q
  {
    assert n * q == 2 * q + (n - 2) * q;
  }

  /** An empty cache hits on exactly that line. */
  lemma {:induction false} PhantomHit(rows: nat, ways: nat, line: nat)
    requires rows > 0 && ways > 0
    ensures line in Blank(rows, ways)[line % rows] <==> line == Invalid
  {
    var row := Blank(rows, ways)[line % rows];
    assert row[0] == Invalid;
  }

  /** An empty cache. */
  function Blank(rows: nat, ways: nat): seq<Row> { seq(rows, _ => seq(ways, _ => Invalid)) }

  lemma {:induction false} BlankOk(rows: nat, ways: nat)
    requires rows > 0 && ways > 0
    ensures TableOk(Blank(rows, ways), ways) && |Blank(rows, ways)| == rows && WayAfter(0, ways) == 0
    ensures forall r :: 0 <= r < rows ==> RowHistory(Blank(rows, ways)[r], []) && 0 % ways == 0
  {
    forall r | 0 <= r < rows ensures RowOk(Blank(rows, ways)[r], r, rows) {}
  }

  /** dcache_init: the parameters are rounded up to powers of two, and the cache has room for what was asked. */
  method Init(size: int, ways: int, line: int, roundRobin: bool, loadPenalty: int, storePenalty: int, simTime: int)
    returns (c: Cache)
    requires forall s: nat, w: nat, l: nat :: Reaches(s, size) && Reaches(w, ways) && Reaches(l, line) ==> l + w <= s
    ensures fresh(c) && c.Valid() && c.loadHits == c.loadMisses == c.storeHits == c.storeMisses == 0
    ensures line <= c.lineSize && ways <= c.ways && size <= c.lineSize * c.ways * c.rows
    ensures c.roundRobin == roundRobin && c.loadPenalty == loadPenalty && c.storePenalty == storePenalty
    ensures c.simTime == simTime && c.table == Blank(c.rows, c.ways)
    ensures forall r :: 0 <= r < c.rows ==> c.misses[r] == []
    ensures (line >= 1 ==> c.lineSize < 2 * line) && (ways >= 1 ==> c.ways < 2 * ways)
  {
    var logSize := Log2Roundup(size);
    var logWays := Log2Roundup(ways);
    var logLine := Log2Roundup(line);
    assert Reaches(logSize, size) && Reaches(logWays, ways) && Reaches(logLine, line);
    var logRows := logSize - logLine - logWays;
    Pow2Adds(logLine, logWays);
    Pow2Adds(logLine + logWays, logRows);
    c := new Cache(logLine, logWays, logRows, roundRobin, loadPenalty, storePenalty, simTime);
  }

  /** The exponent is the rounded-up logarithm of num. */
  predicate Reaches(exp: nat, num: int) { num <= Pow2(exp) && (exp > 0 ==> Pow2(exp - 1) < num) }
}
