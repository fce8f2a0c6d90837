/** The workload loader: from the lines of a trace to client batches and a distribution. */
module TraceLoader {
  import opened Wrappers
  import opened Sums
  import opened Smoothing

  /** One client batch; a get batch has no values. */
  datatype ClientBatch = ClientBatch(keys: seq<string>, values: seq<string>)

  datatype Loaded = Loaded(trace: seq<ClientBatch>, keys: seq<string>, probs: seq<real>)

  /** `find(" ")`, with -1 for `npos`. */
  function Find(s: string): (i: int)
    ensures -1 <= i < |s|
    ensures i == -1 <==> ' ' !in s
    ensures i >= 0 ==> s[i] == ' ' && forall k :: 0 <= k < i ==> s[k] != ' '
  {
    if s == [] then -1
    else if s[0] == ' ' then 0
    else
      var i := Find(s[1..]);
      assert s == [s[0]] + s[1..];
      if i == -1 then -1 else i + 1
  }

  /** Key and value of a line; without a value the line is a get. */
  function ParseLine(line: string): (string, string) {
    var rest := line[Find(line) + 1..];
    if Find(rest) != -1 then (rest[..Find(rest)], rest[Find(rest) + 1..]) else (rest, "")
  }

  /** A line without a space is all key, which is how a bare verb becomes one. */
  lemma ParseBare(line: string)
    requires ' ' !in line
    ensures ParseLine(line) == (line, "")
  {
    assert line[Find(line) + 1..] == line;
  }

  lemma FindAt(a: string, b: string)
    requires ' ' !in a
    ensures Find(a + " " + b) == |a|
  {
    var s := a + " " + b;
    assert s[|a|] == ' ';
    assert forall k :: 0 <= k < |a| ==> s[k] == a[k];
  }

  /** A written operation is read back, whatever the value contains. */
  lemma ParseWritten(op: string, key: string, value: string)
    requires ' ' !in op && ' ' !in key
    ensures ParseLine(op + " " + key) == (key, "")
    ensures ParseLine(op + " " + (key + " " + value)) == (key, value)
  {
    FindAt(op, key);
    assert (op + " " + key)[|op| + 1..] == key;
    var rest := key + " " + value;
    FindAt(op, rest);
    assert (op + " " + rest)[|op| + 1..] == rest;
    FindAt(key, value);
    assert rest[..|key|] == key && rest[|key| + 1..] == value;
  }

  type Parsed = seq<(string, string)>

  function ParseAll(lines: seq<string>): (p: Parsed)
    ensures |p| == |lines|
  {
    seq(|lines|, i requires 0 <= i < |lines| => ParseLine(lines[i]))
  }

  /** The keys of the gets, in file order. */
  function Gets(p: Parsed): seq<string> {
    if p == [] then []
    else Gets(p[..|p| - 1]) + if p[|p| - 1].1 == "" then [p[|p| - 1].0] else []
  }

  /** The puts, in file order. */
  function Puts(p: Parsed): Parsed {
    if p == [] then []
    else Puts(p[..|p| - 1]) + if p[|p| - 1].1 == "" then [] else [p[|p| - 1]]
  }

  function Occurrences(p: Parsed, key: string): nat {
    if p == [] then 0
    else Occurrences(p[..|p| - 1], key) + if p[|p| - 1].0 == key then 1 else 0
  }

  function FlatGets(trace: seq<ClientBatch>): seq<string> {
    if trace == [] then []
    else FlatGets(trace[..|trace| - 1]) + if trace[|trace| - 1].values == [] then trace[|trace| - 1].keys else []
  }

  function PairUp(keys: seq<string>, values: seq<string>): Parsed
    requires |keys| == |values|
  {
    seq(|keys|, i requires 0 <= i < |keys| => (keys[i], values[i]))
  }

  function FlatPuts(trace: seq<ClientBatch>): Parsed
    requires forall b :: b in trace && b.values != [] ==> |b.keys| == |b.values|
  {
    if trace == [] then []
    else FlatPuts(trace[..|trace| - 1])
         + if trace[|trace| - 1].values == [] then [] else PairUp(trace[|trace| - 1].keys, trace[|trace| - 1].values)
  }

  ghost predicate WellFormed(b: ClientBatch, batchSize: int) {
    && b.keys != [] && (b.values == [] || |b.values| == |b.keys|)
    && (batchSize >= 1 ==> |b.keys| <= batchSize)
  }

  ghost predicate AllWellFormed(trace: seq<ClientBatch>, batchSize: int) {
    forall b :: b in trace ==> WellFormed(b, batchSize)
  }

  lemma AppendBatch(trace: seq<ClientBatch>, b: ClientBatch, batchSize: int)
    requires AllWellFormed(trace, batchSize) && WellFormed(b, batchSize)
    ensures AllWellFormed(trace + [b], batchSize)
    ensures FlatGets(trace + [b]) == FlatGets(trace) + if b.values == [] then b.keys else []
    ensures FlatPuts(trace + [b]) == FlatPuts(trace) + if b.values == [] then [] else PairUp(b.keys, b.values)
  {
    assert (trace + [b])[..|trace|] == trace;
  }

  /** The variables of the loop. */
  datatype Reading = Reading(trace: seq<ClientBatch>, getKeys: seq<string>, putKeys: seq<string>,
                             putValues: seq<string>, freq: map<string, nat>)

  /** What one line does: file the operation, and close its batch when that is full. */
  function AddLine(s: Reading, key: string, val: string, batchSize: int): Reading {
    var counted := s.(freq := s.freq[key := At(s.freq, key) + 1]);
    if val == "" then
      var keys := s.getKeys + [key];
      if |keys| == batchSize then counted.(trace := s.trace + [ClientBatch(keys, [])], getKeys := [])
      else counted.(getKeys := keys)
    else
      var keys, values := s.putKeys + [key], s.putValues + [val];
      if |keys| == batchSize
      then counted.(trace := s.trace + [ClientBatch(keys, values)], putKeys := [], putValues := [])
      else counted.(putKeys := keys, putValues := values)
  }

  function ReadAll(p: Parsed, batchSize: int): Reading {
    if p == [] then Reading([], [], [], [], map[])
    else AddLine(ReadAll(p[..|p| - 1], batchSize), p[|p| - 1].0, p[|p| - 1].1, batchSize)
  }

  /** The two flushes after the loop. */
  function Flushed(s: Reading): seq<ClientBatch> {
    s.trace + (if s.getKeys != [] then [ClientBatch(s.getKeys, [])] else [])
    + if s.putKeys != [] then [ClientBatch(s.putKeys, s.putValues)] else []
  }

  /** Batches plus pending operations are the operations of the lines read so far. */
  ghost predicate Batched(p: Parsed, s: Reading, batchSize: int) {
    && AllWellFormed(s.trace, batchSize) && |s.putKeys| == |s.putValues|
    && (batchSize >= 1 ==> |s.getKeys| < batchSize && |s.putKeys| < batchSize)
    && FlatGets(s.trace) + s.getKeys == Gets(p)
    && FlatPuts(s.trace) + PairUp(s.putKeys, s.putValues) == Puts(p)
  }

  lemma LineSnoc(p: Parsed, line: (string, string))
    ensures Gets(p + [line]) == Gets(p) + if line.1 == "" then [line.0] else []
    ensures Puts(p + [line]) == Puts(p) + if line.1 == "" then [] else [line]
  {
    assert (p + [line])[..|p|] == p;
  }

  lemma AddGet(p: Parsed, s: Reading, key: string, batchSize: int)
    requires Batched(p, s, batchSize)
    ensures Batched(p + [(key, "")], AddLine(s, key, "", batchSize), batchSize)
  {
    hide Gets, Puts, FlatGets, FlatPuts, PairUp, WellFormed;
    LineSnoc(p, (key, ""));
    var keys := s.getKeys + [key];
    assert FlatGets(s.trace) + keys == Gets(p) + [key];
    if |keys| == batchSize {
      CloseGets(s.trace, keys, batchSize);
    }
  }

  lemma CloseGets(trace: seq<ClientBatch>, keys: seq<string>, batchSize: int)
    requires AllWellFormed(trace, batchSize) && keys != [] && |keys| == batchSize
    ensures AllWellFormed(trace + [ClientBatch(keys, [])], batchSize)
    ensures FlatGets(trace + [ClientBatch(keys, [])]) == FlatGets(trace) + keys
    ensures FlatPuts(trace + [ClientBatch(keys, [])]) == FlatPuts(trace)
  {
    AppendBatch(trace, ClientBatch(keys, []), batchSize);
  }

  lemma AddPut(p: Parsed, s: Reading, key: string, val: string, batchSize: int)
    requires Batched(p, s, batchSize) && val != ""
    ensures Batched(p + [(key, val)], AddLine(s, key, val, batchSize), batchSize)
  {
    hide Gets, Puts, FlatGets, FlatPuts;
    LineSnoc(p, (key, val));
    var keys, values := s.putKeys + [key], s.putValues + [val];
    assert PairUp(keys, values) == PairUp(s.putKeys, s.putValues) + [(key, val)];
    assert FlatPuts(s.trace) + PairUp(keys, values) == Puts(p) + [(key, val)];
    if |keys| == batchSize {
      ClosePuts(s.trace, keys, values, batchSize);
    }
  }

  lemma ClosePuts(trace: seq<ClientBatch>, keys: seq<string>, values: seq<string>, batchSize: int)
    requires AllWellFormed(trace, batchSize) && keys != [] && |keys| == |values| == batchSize
    ensures AllWellFormed(trace + [ClientBatch(keys, values)], batchSize)
    ensures FlatGets(trace + [ClientBatch(keys, values)]) == FlatGets(trace)
    ensures FlatPuts(trace + [ClientBatch(keys, values)]) == FlatPuts(trace) + PairUp(keys, values)
    ensures PairUp([], []) == []
  {
    AppendBatch(trace, ClientBatch(keys, values), batchSize);
  }

  /** No batch exceeds the batch size, and the batches hold the gets and the puts in file order. */
  lemma {:induction false} ReadAllBatched(p: Parsed, batchSize: int)
    ensures Batched(p, ReadAll(p, batchSize), batchSize)
  {
    if p != [] {
      var front, line := p[..|p| - 1], p[|p| - 1];
      ReadAllBatched(front, batchSize);
      assert p == front + [line];
      if line.1 == "" {
        AddGet(front, ReadAll(front, batchSize), line.0, batchSize);
      } else {
        AddPut(front, ReadAll(front, batchSize), line.0, line.1, batchSize);
      }
    }
  }

  lemma FlushedBatches(p: Parsed, s: Reading, batchSize: int)
    requires Batched(p, s, batchSize)
    ensures AllWellFormed(Flushed(s), batchSize) && FlatGets(Flushed(s)) == Gets(p) && FlatPuts(Flushed(s)) == Puts(p)
  {
    var t := s.trace + if s.getKeys != [] then [ClientBatch(s.getKeys, [])] else [];
    if s.getKeys != [] {
      AppendBatch(s.trace, ClientBatch(s.getKeys, []), batchSize);
    } else {
      assert t == s.trace;
    }
    if s.putKeys != [] {
      AppendBatch(t, ClientBatch(s.putKeys, s.putValues), batchSize);
    } else {
      assert Flushed(s) == t;
    }
  }

  // ------------------------------------------------------------------ when batches are closed

  /** Line `at` closes the j-th batch: it is an operation of the batch's kind, and the batches of that kind so
      far hold exactly the operations of that kind up to this line. */
  ghost predicate Closes(p: Parsed, trace: seq<ClientBatch>, j: nat, at: nat)
    requires j < |trace| && forall b :: b in trace && b.values != [] ==> |b.keys| == |b.values|
  {
    && at < |p| && (p[at].1 == "" <==> trace[j].values == [])
    && if trace[j].values == [] then FlatGets(trace[..j + 1]) == Gets(p[..at + 1])
       else FlatPuts(trace[..j + 1]) == Puts(p[..at + 1])
  }

  /** The first |closed| batches are full, and were closed by these lines, one after the other. */
  ghost predicate ClosedBy(p: Parsed, trace: seq<ClientBatch>, batchSize: int, closed: seq<nat>)
    requires forall b :: b in trace && b.values != [] ==> |b.keys| == |b.values|
  {
    && |closed| <= |trace| && (forall i, j :: 0 <= i < j < |closed| ==> closed[i] < closed[j])
    && forall j :: 0 <= j < |closed| ==> |trace[j].keys| == batchSize && Closes(p, trace, j, closed[j])
  }

  lemma StillCloses(p: Parsed, trace: seq<ClientBatch>, j: nat, at: nat, more: seq<ClientBatch>, line: (string, string))
    requires j < |trace| && forall b :: b in trace + more && b.values != [] ==> |b.keys| == |b.values|
    requires forall b :: b in trace && b.values != [] ==> |b.keys| == |b.values|
    requires Closes(p, trace, j, at)
    ensures Closes(p + [line], trace + more, j, at) && Closes(p, trace + more, j, at)
  {
    assert (p + [line])[..at + 1] == p[..at + 1] && (trace + more)[..j + 1] == trace[..j + 1];
  }

  /** A line that closes no batch. */
  lemma NoneClosed(p: Parsed, trace: seq<ClientBatch>, batchSize: int, closed: seq<nat>, line: (string, string))
    requires AllWellFormed(trace, batchSize) && ClosedBy(p, trace, batchSize, closed)
    ensures ClosedBy(p + [line], trace, batchSize, closed)
  {
    hide Closes;
    forall j | 0 <= j < |closed|
      ensures Closes(p + [line], trace, j, closed[j])
    {
      StillCloses(p, trace, j, closed[j], [], line);
      assert trace + [] == trace;
    }
  }

  lemma OneClosed(p: Parsed, trace: seq<ClientBatch>, batchSize: int, closed: seq<nat>, line: (string, string),
                  b: ClientBatch)
    requires AllWellFormed(trace + [b], batchSize) && AllWellFormed(trace, batchSize)
    requires ClosedBy(p, trace, batchSize, closed) && |closed| == |trace| && |b.keys| == batchSize
    requires forall j :: 0 <= j < |closed| ==> closed[j] < |p|
    requires Closes(p + [line], trace + [b], |trace|, |p|)
    ensures ClosedBy(p + [line], trace + [b], batchSize, closed + [|p|])
  {
    hide Closes;
    forall j | 0 <= j < |closed|
      ensures Closes(p + [line], trace + [b], j, closed[j])
    {
      StillCloses(p, trace, j, closed[j], [b], line);
    }
  }

  lemma ClosedEarlier(p: Parsed, trace: seq<ClientBatch>, batchSize: int, closed: seq<nat>)
    requires AllWellFormed(trace, batchSize) && ClosedBy(p, trace, batchSize, closed)
    ensures forall j :: 0 <= j < |closed| ==> closed[j] < |p|
  {
    forall j | 0 <= j < |closed|
      ensures closed[j] < |p|
    {
      assert Closes(p, trace, j, closed[j]);
    }
  }

  lemma LineCloses(p: Parsed, s: Reading, line: (string, string), batchSize: int)
    requires Batched(p, s, batchSize) && Batched(p + [line], AddLine(s, line.0, line.1, batchSize), batchSize)
    ensures var s' := AddLine(s, line.0, line.1, batchSize);
            || s'.trace == s.trace
            || (|s'.trace| == |s.trace| + 1 && s'.trace[..|s.trace|] == s.trace
                && |s'.trace[|s.trace|].keys| == batchSize
                && Closes(p + [line], s'.trace, |s.trace|, |p|))
  {
    hide Gets, Puts, FlatGets, FlatPuts;
    var s' := AddLine(s, line.0, line.1, batchSize);
    assert (p + [line])[..|p| + 1] == p + [line];
    if s'.trace != s.trace {
      assert s'.trace[..|s.trace| + 1] == s'.trace;
      assert FlatGets(s'.trace) + [] == FlatGets(s'.trace) && PairUp([], []) == [];
      assert FlatPuts(s'.trace) + [] == FlatPuts(s'.trace);
    }
  }

  /** Batches are closed exactly when they are full, in the order of the lines that fill them. */
  lemma {:induction false} ReadAllCloses(p: Parsed, batchSize: int) returns (closed: seq<nat>)
    ensures AllWellFormed(ReadAll(p, batchSize).trace, batchSize)
    ensures ClosedBy(p, ReadAll(p, batchSize).trace, batchSize, closed) && |closed| == |ReadAll(p, batchSize).trace|
  {
    hide Closes, Batched, AddLine;
    ReadAllBatched(p, batchSize);
    BatchedNeeds(p, ReadAll(p, batchSize), batchSize);
    if p == [] {
      closed := [];
    } else {
      var front, line := p[..|p| - 1], p[|p| - 1];
      var s := ReadAll(front, batchSize);
      assert p == front + [line];
      closed := ReadAllCloses(front, batchSize);
      ReadAllBatched(front, batchSize);
      LineCloses(front, s, line, batchSize);
      var trace := ReadAll(p, batchSize).trace;
      if trace == s.trace {
        NoneClosed(front, s.trace, batchSize, closed, line);
      } else {
        assert trace == s.trace + [trace[|s.trace|]];
        ClosedEarlier(front, s.trace, batchSize, closed);
        OneClosed(front, s.trace, batchSize, closed, line, trace[|s.trace|]);
        closed := closed + [|front|];
      }
    }
  }

  lemma BatchedNeeds(p: Parsed, s: Reading, batchSize: int)
    requires Batched(p, s, batchSize)
    ensures AllWellFormed(s.trace, batchSize) && |s.putKeys| == |s.putValues|
    ensures batchSize >= 1 ==> |s.getKeys| < batchSize && |s.putKeys| < batchSize
  {
  }

  /** What follows the closed batches: at most one batch of gets, then at most one of puts, neither full. */
  ghost predicate Remainder(rest: seq<ClientBatch>, batchSize: int) {
    && |rest| <= 2 && (|rest| == 2 ==> rest[0].values == [] && rest[1].values != [])
    && (batchSize >= 1 ==> forall i :: 0 <= i < |rest| ==> |rest[i].keys| < batchSize)
  }

  lemma FlushedRemainder(p: Parsed, s: Reading, batchSize: int, closed: seq<nat>)
    requires Batched(p, s, batchSize) && AllWellFormed(Flushed(s), batchSize)
    requires ClosedBy(p, s.trace, batchSize, closed) && |closed| == |s.trace|
    ensures ClosedBy(p, Flushed(s), batchSize, closed) && Remainder(Flushed(s)[|closed|..], batchSize)
  {
    var rest := Flushed(s)[|closed|..];
    assert Flushed(s) == s.trace + rest;
    forall j | 0 <= j < |closed|
      ensures Closes(p, Flushed(s), j, closed[j])
    {
      StillCloses(p, s.trace, j, closed[j], rest, ("", ""));
    }
  }

  /** Of two batches of one kind the first is full.  In particular, with a batch size below 1 there is at most
      one of each kind. */
  lemma FullButLast(p: Parsed, trace: seq<ClientBatch>, batchSize: int, closed: seq<nat>, i: nat, j: nat)
    requires AllWellFormed(trace, batchSize) && ClosedBy(p, trace, batchSize, closed)
    requires Remainder(trace[|closed|..], batchSize)
    requires i < j < |trace| && (trace[i].values == [] <==> trace[j].values == [])
    ensures batchSize >= 1 && |trace[i].keys| == batchSize
  {
    hide Closes;
    assert trace[i] in trace;
  }

  ghost predicate AllFullButLast(trace: seq<ClientBatch>, batchSize: int) {
    forall i, j :: 0 <= i < j < |trace| && (trace[i].values == [] <==> trace[j].values == []) ==>
      batchSize >= 1 && |trace[i].keys| == batchSize
  }

  lemma AllAreFull(p: Parsed, trace: seq<ClientBatch>, batchSize: int, closed: seq<nat>)
    requires AllWellFormed(trace, batchSize) && ClosedBy(p, trace, batchSize, closed)
    requires Remainder(trace[|closed|..], batchSize)
    ensures AllFullButLast(trace, batchSize)
  {
    hide ClosedBy, Remainder;
    forall i, j | 0 <= i < j < |trace| && (trace[i].values == [] <==> trace[j].values == [])
      ensures batchSize >= 1 && |trace[i].keys| == batchSize
    {
      FullButLast(p, trace, batchSize, closed, i, j);
    }
  }

  lemma FreqAfterLine(s: Reading, key: string, val: string, batchSize: int)
    ensures AddLine(s, key, val, batchSize).freq == s.freq[key := At(s.freq, key) + 1]
  {
  }

  lemma {:induction false} ReadAllCounts(p: Parsed, batchSize: int) returns (seen: seq<string>)
    ensures Counted(p, ReadAll(p, batchSize).freq, seen)
  {
    if p == [] {
      seen := [];
    } else {
      var front, line := p[..|p| - 1], p[|p| - 1];
      var s := ReadAll(front, batchSize);
      var seen0 := ReadAllCounts(front, batchSize);
      assert ReadAll(p, batchSize).freq == s.freq[line.0 := At(s.freq, line.0) + 1] by {
        FreqAfterLine(s, line.0, line.1, batchSize);
      }
      assert p == front + [line];
      seen := CountOne(front, s.freq, seen0, line);
    }
  }

  /** The counts after some lines: every key that occurs, with its number of occurrences, and
      `total` is the number of lines. */
  ghost predicate Counted(p: Parsed, freq: map<string, nat>, seen: seq<string>) {
    && Distinct(seen) && (forall k :: k in seen <==> k in freq)
    && (forall k :: k in freq ==> freq[k] >= 1 && freq[k] == Occurrences(p, k))
    && (forall k :: k !in freq ==> Occurrences(p, k) == 0)
    && Along(seen, freq) == |p|
  }

  lemma CountOne(p: Parsed, freq: map<string, nat>, seen: seq<string>, line: (string, string))
    returns (seen': seq<string>)
    requires Counted(p, freq, seen)
    ensures Counted(p + [line], freq[line.0 := At(freq, line.0) + 1], seen')
  {
    var key := line.0;
    var freq' := freq[key := At(freq, key) + 1];
    assert (p + [line])[..|p|] == p;
    if key in freq {
      seen' := seen;
      Bumped(seen, freq, key);
    } else {
      seen' := seen + [key];
      AlongSnoc(seen, key, freq');
      AlongAgree(seen, freq, freq');
    }
  }

  lemma {:induction false} Bumped(keys: seq<string>, counts: map<string, nat>, key: string)
    requires Distinct(keys)
    ensures Along(keys, counts[key := At(counts, key) + 1]) == Along(keys, counts) + if key in keys then 1 else 0
  {
    if keys != [] {
      Bumped(keys[..|keys| - 1], counts, key);
      assert keys == keys[..|keys| - 1] + [keys[|keys| - 1]];
    }
  }

  lemma {:induction false} QuotientsSum(keys: seq<string>, freq: map<string, nat>, total: nat, probs: seq<real>)
    requires total > 0 && |probs| == |keys|
    requires forall i :: 0 <= i < |keys| ==> probs[i] == Frequency(At(freq, keys[i]), total)
    ensures Sum(probs) == Frequency(Along(keys, freq), total)
  {
    if keys != [] {
      QuotientsSum(keys[..|keys| - 1], freq, total, probs[..|probs| - 1]);
      AddFrequencies(Along(keys[..|keys| - 1], freq), At(freq, keys[|keys| - 1]), total);
    }
  }

  /** `pair.second/(double)frequency_sum` */
  function Frequency(count: nat, total: nat): real
    requires total > 0
  {
    count as real / total as real
  }

  lemma AddFrequencies(x: nat, y: nat, t: nat)
    requires t > 0
    ensures Frequency(x, t) + Frequency(y, t) == Frequency(x + y, t)
    ensures x > 0 ==> Frequency(x, t) > 0.0
    ensures Frequency(t, t) == 1.0
  {
    Quotient(x as real, t as real);
    Quotient(y as real, t as real);
    Quotient((x + y) as real, t as real);
    Distribute(x as real, y as real, 1.0 / t as real);
    PositiveFrequency(x as real, t as real);
  }

  lemma PositiveFrequency(x: real, t: real)
    requires t > 0.0
    ensures x > 0.0 ==> x / t > 0.0
    ensures t / t == 1.0
  {
  }

  /** The keys are those that occur, each once; the probabilities are the relative frequencies,
      all positive, with sum exactly 1. */
  ghost predicate Describes(p: Parsed, keys: seq<string>, probs: seq<real>) {
    && Distinct(keys) && |probs| == |keys| && |p| > 0
    && (forall k :: k in keys <==> Occurrences(p, k) > 0)
    && (forall i :: 0 <= i < |keys| ==> probs[i] == Frequency(Occurrences(p, keys[i]), |p|))
    && IsDistribution(probs)
  }

  predicate IsVerb(key: string) {
    key == "PUT" || key == "GET"
  }

  ghost predicate Rejected(p: Parsed) {
    exists i :: 0 <= i < |p| && IsVerb(p[i].0)
  }

  lemma ReadSnoc(p: Parsed, line: (string, string), batchSize: int)
    ensures ReadAll(p + [line], batchSize) == AddLine(ReadAll(p, batchSize), line.0, line.1, batchSize)
  {
    assert (p + [line])[..|p|] == p;
  }

  /** The operation of one line joins its batch, which is closed when it is full. */
  method FileLine(trace: seq<ClientBatch>, getKeys: seq<string>, putKeys: seq<string>, putValues: seq<string>,
                  key: string, val: string, batchSize: int, ghost freq: map<string, nat>)
    returns (trace': seq<ClientBatch>, getKeys': seq<string>, putKeys': seq<string>, putValues': seq<string>)
    ensures Reading(trace', getKeys', putKeys', putValues', freq[key := At(freq, key) + 1])
            == AddLine(Reading(trace, getKeys, putKeys, putValues, freq), key, val, batchSize)
  {
    trace', getKeys', putKeys', putValues' := trace, getKeys, putKeys, putValues;
    if val == "" {
      getKeys' := getKeys' + [key];
      if |getKeys'| == batchSize {
        trace' := trace' + [ClientBatch(getKeys', [])];
        getKeys' := [];
      }
    } else {
      putKeys' := putKeys' + [key];
      putValues' := putValues' + [val];
      if |putKeys'| == batchSize {
        trace' := trace' + [ClientBatch(putKeys', putValues')];
        putKeys', putValues' := [], [];
      }
    }
  }

  /** The loop of the loader, over lines that have been split into key and value. */
  method ReadLines(lines: Parsed, batchSize: int) returns (ok: bool, s: Reading, sum: nat)
    ensures ok <==> !Rejected(lines)
    ensures ok ==> sum == |lines| && s == ReadAll(lines, batchSize)
  {
    hide AddLine;
    var trace: seq<ClientBatch> := [];
    var getKeys: seq<string>, putKeys: seq<string>, putValues: seq<string> := [], [], [];
    var freq: map<string, nat> := map[];
    sum, ok := 0, true;
    var i := 0;
    while i < |lines|
      invariant sum == i <= |lines|
      invariant Reading(trace, getKeys, putKeys, putValues, freq) == ReadAll(lines[..i], batchSize)
      invariant forall j :: 0 <= j < i ==> !IsVerb(lines[j].0)
    {
      var (key, val) := lines[i];
      ReadSnoc(lines[..i], lines[i], batchSize);
      assert lines[..i + 1] == lines[..i] + [lines[i]];
      trace, getKeys, putKeys, putValues := FileLine(trace, getKeys, putKeys, putValues, key, val, batchSize, freq);
      if IsVerb(key) {
        ok, s := false, Reading(trace, getKeys, putKeys, putValues, freq);
        return;
      }
      freq := freq[key := (if key in freq then freq[key] else 0) + 1];
      sum := sum + 1;
      i := i + 1;
    }
    assert lines[..|lines|] == lines;
    s := Reading(trace, getKeys, putKeys, putValues, freq);
  }

  /** `load_frequencies_from_trace`, for a file whose lines are given.  The hash map is enumerated
      in an arbitrary order.  A line whose key reads PUT or GET fails the assertion.  `closed` are the lines
      that fill a batch and so close it; what they leave is flushed, gets before puts. */
  method Load(lines: seq<string>, batchSize: int) returns (r: Result<Loaded>, ghost closed: seq<nat>)
    ensures r.Err? <==> Rejected(ParseAll(lines))
    ensures r.Ok? ==> AllWellFormed(r.value.trace, batchSize)
    ensures r.Ok? ==> FlatGets(r.value.trace) == Gets(ParseAll(lines))
    ensures r.Ok? ==> FlatPuts(r.value.trace) == Puts(ParseAll(lines))
    ensures r.Ok? ==> AllFullButLast(r.value.trace, batchSize)
    ensures r.Ok? ==> ClosedBy(ParseAll(lines), r.value.trace, batchSize, closed)
                      && Remainder(r.value.trace[|closed|..], batchSize)
    ensures r.Ok? && lines != [] ==> Describes(ParseAll(lines), r.value.keys, r.value.probs)
    ensures lines == [] ==> r == Ok(Loaded([], [], []))
  {
    hide ClosedBy, Remainder, Batched, AllFullButLast, AllWellFormed;
    var p := ParseAll(lines);
    var ok, s, sum := ReadLines(p, batchSize);
    if !ok {
      return Err("assertion on the key"), [];
    }
    ReadAllBatched(p, batchSize);
    FlushedBatches(p, s, batchSize);
    closed := ReadAllCloses(p, batchSize);
    FlushedRemainder(p, s, batchSize, closed);
    AllAreFull(p, Flushed(s), batchSize, closed);
    ghost var seen := ReadAllCounts(p, batchSize);
    var keys, probs := Enumerate(s.freq, sum);
    if lines != [] {
      CountsDescribe(p, s.freq, seen, keys, probs);
    } else {
      assert p == [];
      EmptyKeys(keys);
    }
    r := Ok(Loaded(Flushed(s), keys, probs));
  }

  lemma CountsDescribe(p: Parsed, freq: map<string, nat>, seen: seq<string>, keys: seq<string>, probs: seq<real>)
    requires Counted(p, freq, seen) && |p| > 0
    requires Distinct(keys) && |probs| == |keys| && forall k :: k in keys <==> k in freq
    requires forall i :: 0 <= i < |keys| ==> probs[i] == Frequency(At(freq, keys[i]), |p|)
    ensures Describes(p, keys, probs)
  {
    AlongAnyOrder(keys, seen, freq);
    QuotientsSum(keys, freq, |p|, probs);
    AddFrequencies(|p|, 0, |p|);
    forall i | 0 <= i < |keys|
      ensures probs[i] > 0.0 && At(freq, keys[i]) == Occurrences(p, keys[i])
    {
      assert keys[i] in keys;
      AddFrequencies(At(freq, keys[i]), 0, |p|);
    }
  }

  lemma EmptyKeys(keys: seq<string>)
    ensures (forall k :: k !in keys) ==> keys == []
  {
    assert keys != [] ==> keys[0] in keys;
  }

  method Enumerate(freq: map<string, nat>, sum: nat) returns (keys: seq<string>, probs: seq<real>)
    requires freq != map[] ==> sum > 0
    ensures Distinct(keys) && |probs| == |keys| && forall k :: k in keys <==> k in freq
    ensures sum > 0 ==> forall i :: 0 <= i < |keys| ==> probs[i] == Frequency(At(freq, keys[i]), sum)
  {
    keys, probs := [], [];
    var left := freq.Keys;
    assert forall k :: k in freq ==> freq != map[];
    while left != {}
      invariant left <= freq.Keys && Distinct(keys) && |probs| == |keys|
      invariant forall k :: k in keys <==> k in freq && k !in left
      invariant sum > 0 ==> forall i :: 0 <= i < |keys| ==> probs[i] == Frequency(At(freq, keys[i]), sum)
      decreases left
    {
      var k :| k in left;
      keys := keys + [k];
      probs := probs + [Frequency(freq[k], sum)];
      left := left - {k};
    }
  }
}
