/** Placing multi-media embeddings: runs of placeholder tokens, prefix shifting, and hashing. */
module ExtraEmbedding {
  type Token = int

  datatype AsStatus = SUCCESS | PARAM_ERROR

  /** An embedding tensor with one row for each placeholder it replaces. */
  datatype Tensor = Tensor(id: nat, rows: nat)

  type Embeddings = map<Token, seq<Tensor>>

  datatype Run = Run(token: Token, start: nat, count: nat)

  datatype REInfo = REInfo(token: Token, startPos: int, count: nat, offset: int, hash: int, embedding: Tensor)

  // Runs of placeholder tokens.

  function RunEnd(ids: seq<Token>, pos: nat): (end: nat)
    requires pos < |ids|
    ensures pos < end <= |ids|
    ensures forall i :: pos <= i < end ==> ids[i] == ids[pos]
    ensures end < |ids| ==> ids[end] != ids[pos]
    decreases |ids| - pos
  {
    if pos + 1 < |ids| && ids[pos + 1] == ids[pos] then RunEnd(ids, pos + 1) else pos + 1
  }

  /** The runs of tokens with embeddings, from a position on. */
  function Runs(ids: seq<Token>, keys: set<Token>, pos: nat): seq<Run>
    decreases |ids| - pos
  {
    if pos >= |ids| then []
    else if ids[pos] !in keys then Runs(ids, keys, pos + 1)
    else
      var end := RunEnd(ids, pos);
      [Run(ids[pos], pos, end - pos)] + Runs(ids, keys, end)
  }

  /** A stretch of one placeholder token that cannot be extended on either side. */
  ghost predicate Maximal(ids: seq<Token>, keys: set<Token>, r: Run) {
    && r.count > 0 && r.start + r.count <= |ids| && r.token in keys
    && (forall i :: r.start <= i < r.start + r.count ==> ids[i] == r.token)
    && (r.start > 0 ==> ids[r.start - 1] != r.token)
    && (r.start + r.count < |ids| ==> ids[r.start + r.count] != r.token)
  }

  /** No maximal run reaches across the position. */
  ghost predicate Boundary(ids: seq<Token>, keys: set<Token>, pos: nat) {
    pos == 0 || pos >= |ids| || ids[pos - 1] != ids[pos] || ids[pos] !in keys
  }

  lemma {:induction false} RunsFrom(ids: seq<Token>, keys: set<Token>, pos: nat, r: Run)
    requires Boundary(ids, keys, pos)
    ensures r in Runs(ids, keys, pos) <==> Maximal(ids, keys, r) && r.start >= pos
    decreases |ids| - pos
  {
    if pos < |ids| {
      if ids[pos] !in keys {
        RunsFrom(ids, keys, pos + 1, r);
      } else {
        var end := RunEnd(ids, pos);
        RunsFrom(ids, keys, end, r);
        if Maximal(ids, keys, r) && pos <= r.start < end {
          FirstRun(ids, keys, pos, r);
        }
      }
    }
  }

  lemma FirstRun(ids: seq<Token>, keys: set<Token>, pos: nat, r: Run)
    requires pos < |ids| && ids[pos] in keys && Maximal(ids, keys, r) && pos <= r.start < RunEnd(ids, pos)
    ensures r == Run(ids[pos], pos, RunEnd(ids, pos) - pos)
  {
    assert ids[r.start] == ids[pos];
  }

  /** The runs recorded are exactly the maximal runs. */
  lemma RunsExactly(ids: seq<Token>, keys: set<Token>, r: Run)
    ensures r in Runs(ids, keys, 0) <==> Maximal(ids, keys, r)
  {
    RunsFrom(ids, keys, 0, r);
  }

  ghost predicate InOrder(runs: seq<Run>, from: nat) {
    && (forall i {:trigger runs[i]} :: 0 <= i < |runs| ==> from <= runs[i].start)
    && (forall i, j {:trigger runs[i], runs[j]} ::
          0 <= i < j < |runs| ==> runs[i].start + runs[i].count <= runs[j].start)
  }

  /** The runs are recorded from left to right and do not overlap. */
  lemma {:induction false} RunsInOrder(ids: seq<Token>, keys: set<Token>, pos: nat)
    ensures InOrder(Runs(ids, keys, pos), pos)
    decreases |ids| - pos
  {
    if pos < |ids| {
      if ids[pos] !in keys {
        RunsInOrder(ids, keys, pos + 1);
      } else {
        RunsInOrder(ids, keys, RunEnd(ids, pos));
      }
    }
  }

  // Matching runs with tensors.

  /** How many runs of a token there are. */
  function CountOf(runs: seq<Run>, token: Token): nat {
    if runs == [] then 0
    else CountOf(runs[..|runs| - 1], token) + if runs[|runs| - 1].token == token then 1 else 0
  }

  /** Run i is the k-th of its token, and the k-th tensor of that token is there and has the run's length. */
  predicate Fits(emb: Embeddings, runs: seq<Run>, i: nat)
    requires i < |runs|
  {
    var r := runs[i];
    && r.token in emb
    && CountOf(runs[..i], r.token) < |emb[r.token]|
    && emb[r.token][CountOf(runs[..i], r.token)].rows == r.count
  }

  predicate FitsUpTo(emb: Embeddings, runs: seq<Run>, n: nat) {
    forall i {:trigger Fits(emb, runs, i)} :: 0 <= i < n && i < |runs| ==> Fits(emb, runs, i)
  }

  function InfoOf(emb: Embeddings, runs: seq<Run>, i: nat): REInfo
    requires i < |runs| && Fits(emb, runs, i)
  {
    var r := runs[i];
    REInfo(r.token, r.start, r.count, 0, 0, emb[r.token][CountOf(runs[..i], r.token)])
  }

  ghost predicate Recorded(emb: Embeddings, runs: seq<Run>, infos: seq<REInfo>) {
    && |infos| <= |runs|
    && forall i {:trigger infos[i]} :: 0 <= i < |infos| ==> Fits(emb, runs, i) && infos[i] == InfoOf(emb, runs, i)
  }

  lemma RecordedNext(emb: Embeddings, runs: seq<Run>, infos: seq<REInfo>)
    requires Recorded(emb, runs, infos) && |infos| < |runs| && Fits(emb, runs, |infos|)
    ensures Recorded(emb, runs, infos + [InfoOf(emb, runs, |infos|)])
  {
    var next := infos + [InfoOf(emb, runs, |infos|)];
    forall i | 0 <= i < |next|
      ensures Fits(emb, runs, i) && next[i] == InfoOf(emb, runs, i)
    {
      assert i < |infos| ==> next[i] == infos[i];
    }
  }

  lemma RecordedAll(emb: Embeddings, runs: seq<Run>, infos: seq<REInfo>)
    requires Recorded(emb, runs, infos)
    ensures FitsUpTo(emb, runs, |infos|)
  {
    forall i | 0 <= i < |infos|
      ensures Fits(emb, runs, i)
    {
      assert infos[i] == infos[i];
    }
  }

  lemma CountNext(runs: seq<Run>, i: nat, token: Token)
    requires i < |runs|
    ensures CountOf(runs[..i + 1], token) == CountOf(runs[..i], token) + if runs[i].token == token then 1 else 0
  {
    assert runs[..i + 1][..i] == runs[..i];
  }

  /** The runs before run i that are of the token. */
  ghost function RunsBefore(runs: seq<Run>, i: nat, token: Token): set<nat>
    requires i <= |runs|
  {
    set j: nat | j < i && runs[j].token == token
  }

  ghost function Rank(runs: seq<Run>, i: nat): nat
    requires i < |runs|
  {
    |RunsBefore(runs, i, runs[i].token)|
  }

  lemma RunsBeforeNext(runs: seq<Run>, i: nat, token: Token)
    requires i < |runs|
    ensures i !in RunsBefore(runs, i, token)
    ensures RunsBefore(runs, i + 1, token)
         == RunsBefore(runs, i, token) + if runs[i].token == token then {i} else {}
  {
  }

  lemma {:induction false} CountIsNumber(runs: seq<Run>, i: nat, token: Token)
    requires i <= |runs|
    ensures CountOf(runs[..i], token) == |RunsBefore(runs, i, token)|
  {
    if i > 0 {
      CountIsNumber(runs, i - 1, token);
      CountNext(runs, i - 1, token);
      RunsBeforeNext(runs, i - 1, token);
    }
  }

  /** The tensor for run i is there, the k-th of its token when k runs of the token come before, and fits exactly. */
  ghost predicate Matched(emb: Embeddings, runs: seq<Run>, i: nat)
    requires i < |runs|
  {
    && runs[i].token in emb && Rank(runs, i) < |emb[runs[i].token]|
    && emb[runs[i].token][Rank(runs, i)].rows == runs[i].count
  }

  ghost predicate RecordOf(emb: Embeddings, runs: seq<Run>, i: nat, info: REInfo)
    requires i < |runs|
  {
    && Matched(emb, runs, i)
    && info == REInfo(runs[i].token, runs[i].start, runs[i].count, 0, 0, emb[runs[i].token][Rank(runs, i)])
  }

  lemma FitsIsMatched(emb: Embeddings, runs: seq<Run>, i: nat)
    requires i < |runs|
    ensures Fits(emb, runs, i) <==> Matched(emb, runs, i)
    ensures Fits(emb, runs, i) ==> RecordOf(emb, runs, i, InfoOf(emb, runs, i))
  {
    CountIsNumber(runs, i, runs[i].token);
    assert CountOf(runs[..i], runs[i].token) == Rank(runs, i);
  }

  lemma AllMatched(emb: Embeddings, runs: seq<Run>)
    ensures FitsUpTo(emb, runs, |runs|) <==>
              forall i: nat {:trigger Matched(emb, runs, i)} :: i < |runs| ==> Matched(emb, runs, i)
  {
    forall i: nat | i < |runs|
      ensures Fits(emb, runs, i) <==> Matched(emb, runs, i)
    {
      FitsIsMatched(emb, runs, i);
    }
  }

  /** Parsing, told by the runs and their ranks. */
  lemma ParsedInFull(emb: Embeddings, runs: seq<Run>, status: AsStatus, infos: seq<REInfo>)
    requires status == SUCCESS <==> FitsUpTo(emb, runs, |runs|)
    requires Recorded(emb, runs, infos)
    requires status == PARAM_ERROR ==> |infos| < |runs| && !Fits(emb, runs, |infos|)
    ensures Parsed(emb, runs, status, infos)
  {
    AllMatched(emb, runs);
    if status == PARAM_ERROR {
      FitsIsMatched(emb, runs, |infos|);
    }
    forall i | 0 <= i < |infos|
      ensures RecordOf(emb, runs, i, infos[i])
    {
      FitsIsMatched(emb, runs, i);
    }
  }

  ghost predicate Parsed(emb: Embeddings, runs: seq<Run>, status: AsStatus, infos: seq<REInfo>) {
    && |infos| <= |runs|
    && (status == SUCCESS <==> forall i: nat {:trigger Matched(emb, runs, i)} :: i < |runs| ==> Matched(emb, runs, i))
    && (status == PARAM_ERROR ==> |infos| < |runs| && !Matched(emb, runs, |infos|))
    && (forall i {:trigger infos[i]} :: 0 <= i < |infos| ==> RecordOf(emb, runs, i, infos[i]))
  }

  /** Finds the end of the run at a position. */
  method ScanRun(ids: seq<Token>, pos: nat) returns (length: nat, last: nat)
    requires pos < |ids|
    ensures last + 1 == RunEnd(ids, pos) && length == last + 1 - pos
  {
    length, last := 1, pos;
    while last + 1 < |ids| && ids[last + 1] == ids[pos]
      invariant pos <= last < |ids| && length == last + 1 - pos && ids[last] == ids[pos]
      invariant RunEnd(ids, last) == RunEnd(ids, pos)
    {
      length, last := length + 1, last + 1;
    }
  }

  method ParseExtraEmbedding(emb: Embeddings, ids: seq<Token>) returns (status: AsStatus, infos: seq<REInfo>)
    ensures var runs := Runs(ids, emb.Keys, 0);
            && (status == SUCCESS <==> FitsUpTo(emb, runs, |runs|))
            && Recorded(emb, runs, infos)
            && (status == SUCCESS ==> |infos| == |runs|)
            && (status == PARAM_ERROR ==> |infos| < |runs| && !Fits(emb, runs, |infos|))
    ensures Parsed(emb, Runs(ids, emb.Keys, 0), status, infos)
  {
    infos := [];
    ghost var runs := Runs(ids, emb.Keys, 0);
    if emb == map[] {
      assert emb.Keys == {};
      NoKeysNoRuns(ids, 0);
      ParsedInFull(emb, runs, SUCCESS, []);
      return SUCCESS, [];
    }
    var counter: map<Token, nat> := map[];
    var pos := 0;
    while pos < |ids|
      invariant pos <= |ids|
      invariant Recorded(emb, runs, infos) && runs[|infos|..] == Runs(ids, emb.Keys, pos)
      invariant forall t :: Counter(counter, t) == CountOf(runs[..|infos|], t)
      decreases |ids| - pos
    {
      if ids[pos] in emb {
        var token, start := ids[pos], pos;
        var length;
        length, pos := ScanRun(ids, pos);
        ghost var i := |infos|;
        assert runs[i] == runs[i..][0] == Run(token, start, length);
        assert runs[i + 1..] == runs[i..][1..] == Runs(ids, emb.Keys, pos + 1);
        ghost var before := CountOf(runs[..i], token);
        assert Counter(counter, token) == before;
        counter := counter[token := if Counter(counter, token) != 0 then Counter(counter, token) + 1 else 1];
        if counter[token] > |emb[token]| {
          assert !Fits(emb, runs, i);
          ParsedInFull(emb, runs, PARAM_ERROR, infos);
          return PARAM_ERROR, infos;
        }
        var embedding := emb[token][counter[token] - 1];
        if length != embedding.rows {
          assert !Fits(emb, runs, i);
          ParsedInFull(emb, runs, PARAM_ERROR, infos);
          return PARAM_ERROR, infos;
        }
        forall t
          ensures Counter(counter, t) == CountOf(runs[..i + 1], t)
        {
          CountNext(runs, i, t);
        }
        assert Fits(emb, runs, i) && InfoOf(emb, runs, i) == REInfo(token, start, length, 0, 0, embedding);
        RecordedNext(emb, runs, infos);
        infos := infos + [REInfo(token, start, length, 0, 0, embedding)];
      }
      pos := pos + 1;
    }
    RecordedAll(emb, runs, infos);
    status := SUCCESS;
    ParsedInFull(emb, runs, status, infos);
  }

  function Counter(counter: map<Token, nat>, t: Token): nat {
    if t in counter then counter[t] else 0
  }

  lemma {:induction false} NoKeysNoRuns(ids: seq<Token>, pos: nat)
    ensures Runs(ids, {}, pos) == []
    decreases |ids| - pos
  {
    if pos < |ids| {
      NoKeysNoRuns(ids, pos + 1);
    }
  }

  // Dropping a cached prefix.

  /**
    The embedding row that a run supplies at a position, if any, as the CUDA branch of the embedding operator
    copies them (rich_embedding_op.cpp:98-105); the CPU branch is CpuByte below.
   */
  function RowAt(info: REInfo, pos: int): (row: int) {
    if 0 <= info.startPos <= pos < info.startPos + info.count - info.offset then pos - info.startPos + info.offset
    else -1
  }

  ghost predicate Covers(info: REInfo, pos: int) {
    info.startPos <= pos < info.startPos + info.count
  }

  function Shifted(info: REInfo, prefixLen: nat): REInfo {
    var cached := prefixLen - 1;
    var last := info.startPos + info.count - 1;
    if prefixLen == 0 then info
    else if cached < info.startPos then info.(startPos := info.startPos - prefixLen, offset := 0)
    else if cached < last then info.(startPos := 0, offset := prefixLen - info.startPos)
    else info.(startPos := -1, offset := info.count)
  }

  method UpdateREInfo(infos: array<REInfo>, prefixLen: nat) returns (status: AsStatus)
    modifies infos
    ensures status == SUCCESS
    ensures forall k :: 0 <= k < infos.Length ==> infos[k] == Shifted(old(infos[k]), prefixLen)
  {
    status := SUCCESS;
    if prefixLen == 0 {
      return;
    }
    var cached := prefixLen - 1;
    for k := 0 to infos.Length
      invariant forall j :: 0 <= j < k ==> infos[j] == Shifted(old(infos[j]), prefixLen)
      invariant forall j :: k <= j < infos.Length ==> infos[j] == old(infos[j])
    {
      var info := infos[k];
      var start := info.startPos;
      var end := info.startPos + info.count - 1;
      if cached < start {
        infos[k] := info.(startPos := start - prefixLen, offset := 0);
      } else if start <= cached && cached < end {
        infos[k] := info.(startPos := 0, offset := prefixLen - start);
      } else {
        infos[k] := info.(startPos := -1, offset := info.count);
      }
    }
  }

  /** Every position that is not cached reads, at its new place, the row it read before the prefix was dropped. */
  lemma ShiftKeepsRows(emb: Embeddings, ids: seq<Token>, infos: seq<REInfo>, prefixLen: nat, k: nat, pos: nat)
    requires Recorded(emb, Runs(ids, emb.Keys, 0), infos) && k < |infos| && prefixLen <= pos
    ensures RowAt(Shifted(infos[k], prefixLen), pos - prefixLen) == RowAt(infos[k], pos)
  {
  }

  /** A placeholder position lies in a recorded run. */
  lemma {:induction false} RunAt(ids: seq<Token>, keys: set<Token>, from: nat, pos: nat) returns (k: nat)
    requires from <= pos < |ids| && ids[pos] in keys
    ensures var runs := Runs(ids, keys, from);
            k < |runs| && runs[k].start <= pos < runs[k].start + runs[k].count && runs[k].token == ids[pos]
    decreases |ids| - from
  {
    if ids[from] !in keys {
      k := RunAt(ids, keys, from + 1, pos);
    } else if pos < RunEnd(ids, from) {
      k := 0;
    } else {
      k := RunAt(ids, keys, RunEnd(ids, from), pos);
      k := k + 1;
    }
  }

  /**
    After a successful parse and the loss of any prefix, an uncached placeholder position reads from exactly one
    run, its own, the row of its place in that run; any other uncached position reads none.
   */
  lemma UncachedRows(emb: Embeddings, ids: seq<Token>, infos: seq<REInfo>, prefixLen: nat, pos: nat)
    requires Recorded(emb, Runs(ids, emb.Keys, 0), infos) && |infos| == |Runs(ids, emb.Keys, 0)|
    requires prefixLen <= pos < |ids|
    ensures ids[pos] in emb ==>
              exists k {:trigger infos[k]} :: 0 <= k < |infos| && infos[k].token == ids[pos]
                && Covers(infos[k], pos)
                && RowAt(Shifted(infos[k], prefixLen), pos - prefixLen) == pos - infos[k].startPos
                && pos - infos[k].startPos < infos[k].embedding.rows
    ensures forall j, k {:trigger infos[j], infos[k]} :: 0 <= j < k < |infos| ==>
              RowAt(Shifted(infos[j], prefixLen), pos - prefixLen) == -1
              || RowAt(Shifted(infos[k], prefixLen), pos - prefixLen) == -1
    ensures ids[pos] !in emb ==>
              forall k {:trigger infos[k]} :: 0 <= k < |infos| ==>
                RowAt(Shifted(infos[k], prefixLen), pos - prefixLen) == -1
  {
    var runs := Runs(ids, emb.Keys, 0);
    RunsInOrder(ids, emb.Keys, 0);
    forall k | 0 <= k < |infos|
      ensures RowAt(Shifted(infos[k], prefixLen), pos - prefixLen)
           == if runs[k].start <= pos < runs[k].start + runs[k].count then pos - runs[k].start else -1
      ensures runs[k].start <= pos < runs[k].start + runs[k].count ==> ids[pos] in emb
    {
      ShiftKeepsRows(emb, ids, infos, prefixLen, k, pos);
      RunsExactly(ids, emb.Keys, runs[k]);
    }
    if ids[pos] in emb {
      var k := RunAt(ids, emb.Keys, 0, pos);
      assert infos[k] == InfoOf(emb, runs, k);
    }
  }

  /** Shifting twice is shifting once only where the first shift left the run whole or the second swallows it. */
  lemma ShiftTwiceIff(info: REInfo, a: nat, b: nat)
    requires info.startPos >= 0 && info.offset == 0 && info.count > 0 && a > 0 && b > 0
    ensures Shifted(Shifted(info, a), b) == Shifted(info, a + b) <==>
              || a <= info.startPos
              || (a < info.startPos + info.count && b >= info.count)
              || (a >= info.startPos + info.count && b >= info.count - 1)
  {
  }

  // The bytes that are read, where embeddings are rows of 32-bit words.

  const WORD: nat := 4

  /** Where a word of an embedding row stands in its tensor. */
  function WordOf(row: int, column: nat, hidden: nat): int {
    WORD * (row * hidden + column)
  }

  /** The byte from which the CUDA branch reads a column at a position of a run: the offset counts rows of words. */
  function CudaByte(info: REInfo, pos: int, column: nat, hidden: nat): int {
    WORD * (info.offset * hidden) + WORD * ((pos - info.startPos) * hidden + column)
  }

  /** The CPU branch advances the source by the offset counted in rows of single bytes. */
  function CpuByte(info: REInfo, pos: int, column: nat, hidden: nat): int {
    info.offset * hidden + WORD * ((pos - info.startPos) * hidden + column)
  }

  /** The CUDA branch reads exactly the row of RowAt. */
  lemma CudaReadsRow(info: REInfo, pos: int, column: nat, hidden: nat)
    requires RowAt(info, pos) != -1 && info.offset >= 0
    ensures CudaByte(info, pos, column, hidden) == WordOf(RowAt(info, pos), column, hidden)
  {
    assert (info.offset + (pos - info.startPos)) * hidden == info.offset * hidden + (pos - info.startPos) * hidden;
  }

  /** The CPU branch reads the same words if and only if nothing is skipped. */
  lemma CpuReadsRowIff(info: REInfo, pos: int, column: nat, hidden: nat)
    requires RowAt(info, pos) != -1 && info.offset >= 0 && hidden > 0
    ensures CpuByte(info, pos, column, hidden) == WordOf(RowAt(info, pos), column, hidden) <==> info.offset == 0
  {
    CudaReadsRow(info, pos, column, hidden);
    if info.offset > 0 {
      assert info.offset * hidden > 0;
    }
  }

  /**
    After a prefix is dropped an uncached placeholder reads the words of its own row on CUDA, and on the CPU if and
    only if the prefix does not end inside its run.
   */
  lemma WordsAfterShift(emb: Embeddings, ids: seq<Token>, infos: seq<REInfo>, prefixLen: nat, k: nat, pos: nat,
                        column: nat, hidden: nat)
    requires Recorded(emb, Runs(ids, emb.Keys, 0), infos) && k < |infos|
    requires prefixLen <= pos && Covers(infos[k], pos) && hidden > 0
    ensures var info, row := Shifted(infos[k], prefixLen), pos - infos[k].startPos;
            && CudaByte(info, pos - prefixLen, column, hidden) == WordOf(row, column, hidden)
            && (CpuByte(info, pos - prefixLen, column, hidden) == WordOf(row, column, hidden)
                <==> prefixLen <= infos[k].startPos)
  {
    ShiftKeepsRows(emb, ids, infos, prefixLen, k, pos);
    var info := Shifted(infos[k], prefixLen);
    CudaReadsRow(info, pos - prefixLen, column, hidden);
    CpuReadsRowIff(info, pos - prefixLen, column, hidden);
  }

  // Hashing.

  /** The hash inputs of a request, one hash for each run, if it has any. */
  datatype HashInput = Missing | Given(hashes: seq<int>)

  /** Gives the i-th run the hash of the i-th hash input; the numbers must agree if there are hash inputs at all. */
  method HashEmbedding(input: HashInput, infos: array<REInfo>) returns (status: AsStatus)
    modifies infos
    ensures status == SUCCESS <==> input.Missing? || |input.hashes| == infos.Length
    ensures status == SUCCESS && input.Given? ==>
              forall k :: 0 <= k < infos.Length ==> infos[k] == old(infos[k]).(hash := input.hashes[k])
    ensures status == PARAM_ERROR || input.Missing? ==> infos[..] == old(infos[..])
  {
    if input.Missing? {
      return SUCCESS;
    }
    var hashes := input.hashes;
    if |hashes| != infos.Length {
      return PARAM_ERROR;
    }
    for i := 0 to |hashes|
      invariant forall k :: 0 <= k < i ==> infos[k] == old(infos[k]).(hash := hashes[k])
      invariant forall k :: i <= k < infos.Length ==> infos[k] == old(infos[k])
    {
      infos[i] := infos[i].(hash := hashes[i]);
    }
    status := SUCCESS;
  }

  /** The infos lie in the target, from left to right. */
  ghost predicate Placed(infos: seq<REInfo>, length: nat) {
    && (forall k {:trigger infos[k]} :: 0 <= k < |infos| ==>
          0 <= infos[k].startPos && infos[k].startPos + infos[k].count <= length)
    && (forall j, k {:trigger infos[j], infos[k]} ::
          0 <= j < k < |infos| ==> infos[j].startPos + infos[j].count <= infos[k].startPos)
  }

  /** Parsed runs are placed, so that their hashes may be written. */
  lemma RecordedArePlaced(emb: Embeddings, ids: seq<Token>, infos: seq<REInfo>)
    requires Recorded(emb, Runs(ids, emb.Keys, 0), infos)
    ensures Placed(infos, |ids|)
  {
    RunsInOrder(ids, emb.Keys, 0);
    forall k | 0 <= k < |infos|
      ensures infos[k].startPos + infos[k].count <= |ids|
    {
      RunsExactly(ids, emb.Keys, Runs(ids, emb.Keys, 0)[k]);
    }
  }

  ghost predicate Replaced(before: seq<int>, after: seq<int>, infos: seq<REInfo>, n: nat) {
    && |before| == |after|
    && forall p {:trigger after[p]} :: 0 <= p < |after| ==>
         && (forall k {:trigger infos[k]} :: 0 <= k < n && k < |infos| && Covers(infos[k], p) ==>
              after[p] == infos[k].hash)
         && ((forall k {:trigger infos[k]} :: 0 <= k < n && k < |infos| ==> !Covers(infos[k], p)) ==>
              after[p] == before[p])
  }

  method ReplacePlaceHolder(target: array<int>, infos: seq<REInfo>)
    requires Placed(infos, target.Length)
    modifies target
    ensures Replaced(old(target[..]), target[..], infos, |infos|)
  {
    ghost var before := target[..];
    for k := 0 to |infos|
      invariant Replaced(before, target[..], infos, k)
    {
      FillRun(target, infos[k]);
    }
  }

  method FillRun(target: array<int>, info: REInfo)
    requires 0 <= info.startPos && info.startPos + info.count <= target.Length
    modifies target
    ensures forall p :: 0 <= p < target.Length ==> target[p] == if Covers(info, p) then info.hash else old(target[p])
  {
    for pos := info.startPos to info.startPos + info.count
      invariant forall p :: 0 <= p < target.Length ==>
                  target[p] == if Covers(info, p) && p < pos then info.hash else old(target[p])
    {
      target[pos] := info.hash;
    }
  }

  /**
    The token sequence under which a request is looked up in the prefix cache: the tokens themselves, with every
    placeholder replaced by the hash of what stands for it.
   */
  method CreateTensorForHash(emb: Embeddings, input: HashInput, ids: seq<Token>)
    returns (status: AsStatus, target: array<int>)
    ensures var runs := Runs(ids, emb.Keys, 0);
            && (status == SUCCESS <==>
                  if input.Given?
                  then && |input.hashes| == |runs|
                       && forall i: nat {:trigger Matched(emb, runs, i)} :: i < |runs| ==> Matched(emb, runs, i)
                  else emb == map[])
            && (status == SUCCESS && input.Missing? ==> target[..] == ids)
            && (status == SUCCESS && input.Given? ==>
                  && target.Length == |ids|
                  && (forall p, k {:trigger target[p], runs[k]} ::
                        0 <= p < |ids| && 0 <= k < |runs| && runs[k].start <= p < runs[k].start + runs[k].count ==>
                          target[p] == input.hashes[k])
                  && (forall p :: 0 <= p < |ids| && ids[p] !in emb ==> target[p] == ids[p]))
  {
    target := new int[|ids|](i requires 0 <= i < |ids| => ids[i]);
    assert target[..] == ids;
    if input.Missing? {
      status := if emb == map[] then SUCCESS else PARAM_ERROR;
      return;
    }
    var infos;
    status, infos := ParseExtraEmbedding(emb, ids);
    if status != SUCCESS {
      return;
    }
    RecordedAll(emb, Runs(ids, emb.Keys, 0), infos);
    AllMatched(emb, Runs(ids, emb.Keys, 0));
    var hashed := new REInfo[|infos|](i requires 0 <= i < |infos| => infos[i]);
    status := HashEmbedding(input, hashed);
    if status != SUCCESS {
      return;
    }
    RecordedArePlaced(emb, ids, infos);
    ReplacePlaceHolder(target, hashed[..]);
    HashesReplace(emb, ids, infos, hashed[..], input.hashes, target[..]);
  }

  /** What the hashed records write, in terms of the runs. */
  lemma HashesReplace(emb: Embeddings, ids: seq<Token>, infos: seq<REInfo>, hashed: seq<REInfo>, hashes: seq<int>,
                      target: seq<int>)
    requires Recorded(emb, Runs(ids, emb.Keys, 0), infos) && |infos| == |Runs(ids, emb.Keys, 0)| == |hashed| == |hashes|
    requires forall k {:trigger hashed[k]} :: 0 <= k < |infos| ==> hashed[k] == infos[k].(hash := hashes[k])
    requires Replaced(ids, target, hashed, |hashed|)
    ensures var runs := Runs(ids, emb.Keys, 0);
            && (forall p, k {:trigger target[p], runs[k]} ::
                  0 <= p < |ids| && 0 <= k < |runs| && runs[k].start <= p < runs[k].start + runs[k].count ==>
                    target[p] == hashes[k])
            && (forall p :: 0 <= p < |ids| && ids[p] !in emb ==> target[p] == ids[p])
  {
    var runs := Runs(ids, emb.Keys, 0);
    RecordedAll(emb, runs, infos);
    forall k | 0 <= k < |infos|
      ensures hashed[k].startPos == runs[k].start && hashed[k].count == runs[k].count && hashed[k].hash == hashes[k]
    {
      assert Fits(emb, runs, k) && infos[k] == InfoOf(emb, runs, k);
    }
    forall p | 0 <= p < |ids| && ids[p] !in emb
      ensures target[p] == ids[p]
    {
      forall k | 0 <= k < |hashed|
        ensures !Covers(hashed[k], p)
      {
        RunsExactly(ids, emb.Keys, runs[k]);
        assert runs[k] in runs;
      }
    }
  }
}
