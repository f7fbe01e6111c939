/** The order of the lines of a message does not matter, with the one exception
    of Adaptive together with Priority, which both write the policy. */
module Ordering {
  import opened Text
  import opened Management
  import opened Engine

  /** Two effects that write different fields. */
  predicate Compatible(e1: Effect, e2: Effect) {
    match (e1, e2)
    case (Nothing, _) => true
    case (_, Nothing) => true
    case (NumberIs(f, _), NumberIs(g, _)) => f != g
    case (TextIs(f, _), TextIs(g, _)) => f != g
    case (FileNumberIs(f, _), FileNumberIs(g, _)) => f != g
    case (TypeIs(_), TypeIs(_)) => false
    case (PolicyIs(_), PolicyIs(_)) => false
    case (CodeIs(_), CodeIs(_)) => false
    case (DescriptionIs(_), DescriptionIs(_)) => false
    case (RemoteIs(_), RemoteIs(_)) => false
    case (EncryptionIs(_), EncryptionIs(_)) => false
    case (ChunkSizeIs(_), ChunkSizeIs(_)) => false
    case (FileNameIs(_), FileNameIs(_)) => false
    case (FileChecksumIs(_), FileChecksumIs(_)) => false
    case (FileChecksumTypeIs(_), FileChecksumTypeIs(_)) => false
    case _ => true
  }

  lemma FileNumbersCommute(r: FileRecord, f: FileNumber, m: int, g: FileNumber, n: int)
    requires f != g
    ensures SetFileNumber(SetFileNumber(r, f, m), g, n) == SetFileNumber(SetFileNumber(r, g, n), f, m)
  {
  }

  lemma TypeCommutes(s: Stats, t: MessageType, e: Effect)
    requires !e.TypeIs?
    ensures ApplyStats(CountType(s, t), e) == CountType(ApplyStats(s, e), t)
  {
  }

  lemma MapsCommute(s: Stats, e1: Effect, e2: Effect)
    requires Compatible(e1, e2)
    requires (e1.NumberIs? && e2.NumberIs?) || (e1.TextIs? && e2.TextIs?)
    ensures ApplyStats(ApplyStats(s, e1), e2) == ApplyStats(ApplyStats(s, e2), e1)
  {
    if e1.NumberIs? {
      assert s.numbers[e1.number := e1.n][e2.number := e2.n] == s.numbers[e2.number := e2.n][e1.number := e1.n];
    } else {
      assert s.texts[e1.text := e1.s][e2.text := e2.s] == s.texts[e2.text := e2.s][e1.text := e1.s];
    }
  }

  lemma StatsCommute(s: Stats, e1: Effect, e2: Effect)
    requires Compatible(e1, e2)
    ensures ApplyStats(ApplyStats(s, e1), e2) == ApplyStats(ApplyStats(s, e2), e1)
  {
    hide CountType;
    if e1.TypeIs? {
      TypeCommutes(s, e1.t, e2);
    } else if e2.TypeIs? {
      TypeCommutes(s, e2.t, e1);
    } else if (e1.NumberIs? && e2.NumberIs?) || (e1.TextIs? && e2.TextIs?) {
      MapsCommute(s, e1, e2);
    }
  }

  lemma FileCommute(r: FileRecord, e1: Effect, e2: Effect)
    requires Compatible(e1, e2)
    ensures ApplyFile(ApplyFile(r, e1), e2) == ApplyFile(ApplyFile(r, e2), e1)
  {
    if e1.FileNumberIs? && e2.FileNumberIs? {
      FileNumbersCommute(r, e1.fileNumber, e1.n, e2.fileNumber, e2.n);
    }
  }

  lemma Commute(d: Draft, e1: Effect, e2: Effect)
    requires Compatible(e1, e2)
    ensures Apply(Apply(d, e1), e2) == Apply(Apply(d, e2), e1)
  {
    hide ApplyStats;
    hide ApplyFile;
    StatsCommute(d.stats, e1, e2);
    FileCommute(d.file, e1, e2);
  }

  // ---------- Permuting lines ----------

  predicate AllGood(lines: seq<Line>) {
    forall i :: 0 <= i < |lines| ==> StepOf(lines[i]).Good?
  }

  predicate CompatibleLines(l1: Line, l2: Line) {
    StepOf(l1).Good? && StepOf(l2).Good? ==> Compatible(StepOf(l1).effect, StepOf(l2).effect)
  }

  predicate PairwiseCompatible(lines: seq<Line>) {
    forall i, j :: 0 <= i < j < |lines| ==> CompatibleLines(lines[i], lines[j])
  }

  lemma {:induction false} FoldGood(d: Draft, lines: seq<Line>)
    requires AllGood(lines)
    ensures FoldLines(d, lines).1 == Clean
    decreases |lines|
  {
    hide StepOf;
    hide Apply;
    if lines != [] {
      FoldGood(Apply(d, StepOf(lines[0]).effect), lines[1..]);
    }
  }

  lemma FoldCons(d: Draft, line: Line, rest: seq<Line>)
    requires StepOf(line).Good?
    ensures FoldLines(d, [line] + rest) == FoldLines(Apply(d, StepOf(line).effect), rest)
  {
    assert ([line] + rest)[1..] == rest;
  }

  /** A line may be moved to the front past lines that write other fields. */
  lemma {:induction false} MoveToFront(d: Draft, x: seq<Line>, line: Line, y: seq<Line>)
    requires AllGood(x) && AllGood(y) && StepOf(line).Good?
    requires forall i :: 0 <= i < |x| ==> CompatibleLines(line, x[i])
    ensures FoldLines(d, x + [line] + y) == FoldLines(d, [line] + (x + y))
    decreases |x|
  {
    hide StepOf;
    hide Apply;
    hide FoldLines;
    hide Compatible;
    if x == [] {
      assert x + [line] + y == [line] + (x + y);
    } else {
      var first, rest := x[0], x[1..];
      var e, f := StepOf(line).effect, StepOf(first).effect;
      assert x + [line] + y == [first] + (rest + [line] + y);
      assert x + y == [first] + (rest + y);
      FoldCons(d, first, rest + [line] + y);
      MoveToFront(Apply(d, f), rest, line, y);
      FoldCons(Apply(d, f), line, rest + y);
      FoldCons(d, line, x + y);
      FoldCons(Apply(d, e), first, rest + y);
      Commute(d, e, f);
    }
  }

  /** In a permutation of `a`, where the first element of `a` went. */
  lemma HeadIn<T>(a: seq<T>, b: seq<T>) returns (k: nat)
    requires a != [] && multiset(a) == multiset(b)
    ensures k < |b| && b == b[..k] + [a[0]] + b[k + 1..]
    ensures multiset(a[1..]) == multiset(b[..k] + b[k + 1..])
  {
    assert a[0] in multiset(b);
    k :| 0 <= k < |b| && b[k] == a[0];
    var x, y := b[..k], b[k + 1..];
    assert b == x + [a[0]] + y;
    assert a == [a[0]] + a[1..];
    assert multiset(a) == multiset{a[0]} + multiset(a[1..]);
    assert multiset(b) == multiset(x) + multiset{a[0]} + multiset(y);
    assert multiset(a[1..]) == multiset(a) - multiset{a[0]};
    assert multiset(x + y) == multiset(b) - multiset{a[0]};
  }

  lemma SameLength<T>(a: seq<T>, b: seq<T>)
    requires multiset(a) == multiset(b)
    ensures |a| == |b|
  {
    assert |multiset(a)| == |a| && |multiset(b)| == |b|;
  }

  /** Two sequences with the same elements satisfy the same predicates. */
  lemma SameMembers<T>(a: seq<T>, b: seq<T>)
    requires multiset(a) == multiset(b)
    ensures forall i :: 0 <= i < |b| ==> b[i] in a
  {
    forall i | 0 <= i < |b| ensures b[i] in a {
      assert b[i] in multiset(b);
      assert b[i] in multiset(a);
    }
  }

  lemma {:induction false} Permute(d: Draft, a: seq<Line>, b: seq<Line>)
    requires multiset(a) == multiset(b)
    requires AllGood(a) && PairwiseCompatible(a)
    ensures FoldLines(d, a) == FoldLines(d, b)
    decreases |a|
  {
    hide StepOf;
    hide Apply;
    hide CompatibleLines;
    hide FoldLines;
    SameLength(a, b);
    if a != [] {
      var line, rest := a[0], a[1..];
      assert a == [line] + rest;
      var k := HeadIn(a, b);
      var x, y := b[..k], b[k + 1..];
      SameMembers(rest, x + y);
      forall i | 0 <= i < |x + y| ensures StepOf((x + y)[i]).Good? && CompatibleLines(line, (x + y)[i]) {
        var j :| 0 <= j < |rest| && rest[j] == (x + y)[i];
        assert a[j + 1] == rest[j];
      }
      assert AllGood(x) by { assert forall i :: 0 <= i < |x| ==> x[i] == (x + y)[i]; }
      assert AllGood(y) by { assert forall i :: 0 <= i < |y| ==> y[i] == (x + y)[i + |x|]; }
      assert forall i :: 0 <= i < |x| ==> x[i] == (x + y)[i];
      MoveToFront(d, x, line, y);
      FoldCons(d, line, rest);
      FoldCons(d, line, x + y);
      Permute(Apply(d, StepOf(line).effect), rest, x + y);
    } else {
      assert b == [];
    }
  }

  lemma ReadLinesAround(x: seq<string>, line: string, y: seq<string>)
    ensures ReadLines(x + [line] + y) == ReadLines(x) + [ReadLine(line)] + ReadLines(y)
    ensures ReadLines(x + y) == ReadLines(x) + ReadLines(y)
  {
    hide ReadLine;
  }

  lemma Insert<T>(x: seq<T>, e: T, y: seq<T>)
    ensures multiset(x + [e] + y) == multiset(x + y) + multiset{e}
  {
  }

  lemma {:induction false} ReadPermuted(a: seq<string>, b: seq<string>)
    requires multiset(a) == multiset(b)
    ensures multiset(ReadLines(a)) == multiset(ReadLines(b))
    decreases |a|
  {
    hide ReadLine;
    hide ReadLines;
    SameLength(a, b);
    if a != [] {
      var k := HeadIn(a, b);
      var x, y := b[..k], b[k + 1..];
      ReadPermuted(a[1..], x + y);
      ReadLinesAround(x, a[0], y);
      ReadLinesAround([], a[0], a[1..]);
      assert a == [] + [a[0]] + a[1..] && [] + a[1..] == a[1..];
      Insert(ReadLines(x), ReadLine(a[0]), ReadLines(y));
      Insert(ReadLines([]), ReadLine(a[0]), ReadLines(a[1..]));
    }
  }

  // ---------- Distinct keys ----------

  predicate DistinctKeys(lines: seq<Line>) {
    forall i, j :: 0 <= i < j < |lines| && lines[i].KeyValue? && lines[j].KeyValue? ==> lines[i].key != lines[j].key
  }

  predicate SetsPolicy(line: Line) {
    StepOf(line).Good? && StepOf(line).effect.PolicyIs?
  }

  /** Adaptive and a Priority of 1 in the same message. */
  predicate TwoPolicies(lines: seq<Line>) {
    exists i, j :: 0 <= i < j < |lines| && SetsPolicy(lines[i]) && SetsPolicy(lines[j])
  }

  /** The field an effect writes. */
  function FieldOfEffect(e: Effect): Field {
    match e
    case Nothing => Unused
    case TypeIs(_) => TypeField
    case PolicyIs(_) => AdaptiveField
    case CodeIs(_) => CodeField
    case DescriptionIs(_) => DescriptionField
    case RemoteIs(_) => RemoteField
    case EncryptionIs(_) => EncryptionField
    case ChunkSizeIs(_) => ChunkSizeField
    case NumberIs(f, _) => NumberField(f)
    case TextIs(f, _) => TextField(f)
    case FileNameIs(_) => FileNameField
    case FileNumberIs(f, _) => FileNumberField(f)
    case FileChecksumIs(_) => FileChecksumField
    case FileChecksumTypeIs(_) => FileChecksumTypeField
  }

  lemma CompatibleFields(e1: Effect, e2: Effect)
    requires e1.Nothing? || e2.Nothing? || FieldOfEffect(e1) != FieldOfEffect(e2)
    ensures Compatible(e1, e2)
  {
  }

  lemma DecodeField(f: Field, val: string)
    requires Decode(f, val).Some?
    ensures var e := Decode(f, val).value; e.Nothing? || e.PolicyIs? || FieldOfEffect(e) == f
  {
    hide TypeOf;
    hide PolicyOf;
    hide ParseInt64;
    hide ParseNumber;
  }

  lemma DecodePolicy(f: Field, val: string)
    requires Decode(f, val).Some? && Decode(f, val).value.PolicyIs?
    ensures f == AdaptiveField || f == PriorityField
  {
    hide TypeOf;
    hide PolicyOf;
    hide ParseInt64;
    hide ParseNumber;
  }

  lemma DistinctKeysCompatible(l1: Line, l2: Line)
    requires l1.KeyValue? && l2.KeyValue? ==> l1.key != l2.key
    requires !(SetsPolicy(l1) && SetsPolicy(l2))
    ensures CompatibleLines(l1, l2)
  {
    hide Compatible;
    hide FieldOf;
    hide Decode;
    hide FieldOfEffect;
    if StepOf(l1).Good? && StepOf(l2).Good? {
      var e1, e2 := StepOf(l1).effect, StepOf(l2).effect;
      if !e1.Nothing? && !e2.Nothing? {
        var f1, f2 := FieldOf(l1.key), FieldOf(l2.key);
        DecodeField(f1, l1.val);
        DecodeField(f2, l2.val);
        DecodedFieldIsUsed(f1, l1.val);
        if f1 == f2 {
          FieldOfInjective(l1.key, l2.key);
        }
        PolicyEffect(e1);
        PolicyEffect(e2);
        if e1.PolicyIs? {
          OnlyPolicyIsAdaptive(e2);
        } else if e2.PolicyIs? {
          OnlyPolicyIsAdaptive(e1);
        }
        CompatibleFields(e1, e2);
      } else {
        CompatibleFields(e1, e2);
      }
    }
  }

  lemma PolicyEffect(e: Effect)
    ensures e.PolicyIs? ==> FieldOfEffect(e) == AdaptiveField
  {
  }

  lemma OnlyPolicyIsAdaptive(e: Effect)
    requires !e.PolicyIs?
    ensures FieldOfEffect(e) != AdaptiveField
  {
  }

  lemma DecodedFieldIsUsed(f: Field, val: string)
    requires Decode(f, val).Some? && !Decode(f, val).value.Nothing?
    ensures f != Unused
  {
  }

  /** Every permutation of the lines of a message with pairwise distinct keys, whose
      values all parse and which does not set the policy twice, leaves the same
      session: statistics, file map, event and outcome. */
  lemma OrderIndependence(st: Session, a: seq<string>, b: seq<string>)
    requires a != [] && AllOneLine(a) && multiset(a) == multiset(b)
    requires AllGood(ReadLines(a)) && DistinctKeys(ReadLines(a)) && !TwoPolicies(ReadLines(a))
    ensures b != [] && Process(st, Join(a)).core == Process(st, Join(b)).core
    ensures Process(st, Join(a)).outcomes == Process(st, Join(b)).outcomes
  {
    hide StepOf;
    hide StepCore;
    hide ReadLines;
    hide CompatibleLines;
    hide SetsPolicy;
    SameLength(a, b);
    SameMembers(a, b);
    assert AllOneLine(b);
    SplitJoin(a);
    SplitJoin(b);
    ReadPermuted(a, b);
    var lines := ReadLines(a);
    forall i, j | 0 <= i < j < |lines| ensures CompatibleLines(lines[i], lines[j]) {
      DistinctKeysCompatible(lines[i], lines[j]);
    }
    Permute(DraftOf(st.core), lines, ReadLines(b));
    SameFold(st.core, st.stream, st.started, Join(a), Join(b));
  }

  lemma SameFold(c: Core, stream: bool, started: bool, m1: string, m2: string)
    requires FoldLines(DraftOf(c), LinesOf(m1)) == FoldLines(DraftOf(c), LinesOf(m2))
    ensures StepCore(c, stream, started, m1) == StepCore(c, stream, started, m2)
  {
    hide FoldLines;
    hide LinesOf;
    hide Conclude;
  }

  // ---------- Setting the policy twice ----------

  /** Only Adaptive and Priority set the policy, Adaptive never to high, Priority to
      nothing else. */
  lemma PolicyLine(line: Line)
    requires SetsPolicy(line)
    ensures line.KeyValue? && (line.key == "Adaptive" || line.key == "Priority")
    ensures line.key == "Adaptive" <==> StepOf(line).effect.p != HighPolicy
  {
    hide FieldOf;
    hide Decode;
    var f := FieldOf(line.key);
    DecodePolicy(f, line.val);
    KeyOfField(line.key);
    PolicyOfField(f, line.val);
  }

  lemma PolicyOfField(f: Field, val: string)
    requires f == AdaptiveField || f == PriorityField
    requires Decode(f, val).Some? && Decode(f, val).value.PolicyIs?
    ensures f == AdaptiveField <==> Decode(f, val).value.p != HighPolicy
    ensures KeyOf(f) == if f == AdaptiveField then "Adaptive" else "Priority"
  {
  }

  lemma OthersKeepPolicy(d: Draft, e: Effect)
    ensures Apply(d, e).stats.policy == if e.PolicyIs? then e.p else d.stats.policy
  {
  }

  lemma {:induction false} PolicyKept(d: Draft, lines: seq<Line>)
    requires AllGood(lines) && forall k :: 0 <= k < |lines| ==> !SetsPolicy(lines[k])
    ensures FoldLines(d, lines).0.stats.policy == d.stats.policy
    decreases |lines|
  {
    hide StepOf;
    hide Apply;
    if lines != [] {
      assert !SetsPolicy(lines[0]);
      OthersKeepPolicy(d, StepOf(lines[0]).effect);
      PolicyKept(Apply(d, StepOf(lines[0]).effect), lines[1..]);
    }
  }

  /** The last line that sets the policy wins. */
  lemma {:induction false} LastPolicyWins(d: Draft, lines: seq<Line>, j: nat)
    requires AllGood(lines) && j < |lines| && SetsPolicy(lines[j])
    requires forall k :: j < k < |lines| ==> !SetsPolicy(lines[k])
    ensures FoldLines(d, lines).0.stats.policy == StepOf(lines[j]).effect.p
    decreases |lines|
  {
    hide StepOf;
    hide Apply;
    var e := StepOf(lines[0]).effect;
    if j == 0 {
      OthersKeepPolicy(d, e);
      forall k | 0 <= k < |lines[1..]| ensures !SetsPolicy(lines[1..][k]) {
        assert lines[1..][k] == lines[k + 1];
      }
      PolicyKept(Apply(d, e), lines[1..]);
    } else {
      LastPolicyWins(Apply(d, e), lines[1..], j - 1);
    }
  }

  lemma PolicyOfProcess(st: Session, msg: string)
    ensures Process(st, msg).core.stats == FoldLines(DraftOf(st.core), LinesOf(msg)).0.stats
  {
    hide FoldLines;
    hide LinesOf;
    hide MergeFiles;
  }

  /** With distinct keys no third line sets the policy. */
  lemma NoThirdPolicy(lines: seq<Line>, i: nat, j: nat, k: nat)
    requires DistinctKeys(lines) && i < j < |lines| && k < |lines| && k != i && k != j
    requires SetsPolicy(lines[i]) && SetsPolicy(lines[j])
    ensures !SetsPolicy(lines[k])
  {
    hide SetsPolicy;
    PolicyKey(lines[i]);
    PolicyKey(lines[j]);
    PolicyKey(lines[k]);
  }

  lemma PolicyKey(line: Line)
    ensures SetsPolicy(line) ==> line.KeyValue? && (line.key == "Adaptive" || line.key == "Priority")
  {
    hide SetsPolicy;
    if SetsPolicy(line) {
      PolicyLine(line);
    }
  }

  function Swap<T>(s: seq<T>, i: nat, j: nat): (r: seq<T>)
    requires i < |s| && j < |s|
    ensures |r| == |s| && multiset(r) == multiset(s)
  {
    s[i := s[j]][j := s[i]]
  }

  /** Swapping the two lines that set the policy changes it. */
  lemma SwapChangesPolicy(d: Draft, lines: seq<Line>, i: nat, j: nat)
    requires AllGood(lines) && DistinctKeys(lines)
    requires i < j < |lines| && SetsPolicy(lines[i]) && SetsPolicy(lines[j])
    ensures FoldLines(d, lines).0.stats.policy != FoldLines(d, Swap(lines, i, j)).0.stats.policy
  {
    hide StepOf;
    hide FoldLines;
    hide SetsPolicy;
    var b := Swap(lines, i, j);
    forall k | 0 <= k < |lines| && k != i && k != j ensures !SetsPolicy(lines[k]) {
      NoThirdPolicy(lines, i, j, k);
    }
    LastPolicyWins(d, lines, j);
    LastPolicyWins(d, b, j);
    PolicyLine(lines[i]);
    PolicyLine(lines[j]);
    assert lines[i].key != lines[j].key;
    PolicyIsAdaptiveOrHigh(lines[i], lines[j]);
  }

  lemma PolicyIsAdaptiveOrHigh(l1: Line, l2: Line)
    requires SetsPolicy(l1) && SetsPolicy(l2) && l1.KeyValue? && l2.KeyValue? && l1.key != l2.key
    ensures StepOf(l1).effect.p != StepOf(l2).effect.p
  {
    hide StepOf;
    PolicyLine(l1);
    PolicyLine(l2);
  }

  /** The session after the messages made of these lines is the same. */
  predicate SameResult(st: Session, a: seq<string>, b: seq<string>)
    requires a != [] && b != []
  {
    && Process(st, Join(a)).core == Process(st, Join(b)).core
    && Process(st, Join(a)).outcomes == Process(st, Join(b)).outcomes
  }

  /** A message of distinct keys with good values that sets the policy twice, by an
      accepted Adaptive and a Priority of 1, gives another policy in another order. */
  lemma PolicyOrderMatters(st: Session, a: seq<string>) returns (b: seq<string>)
    requires a != [] && AllOneLine(a)
    requires AllGood(ReadLines(a)) && DistinctKeys(ReadLines(a)) && TwoPolicies(ReadLines(a))
    ensures b != [] && multiset(a) == multiset(b)
    ensures Process(st, Join(a)).core.stats.policy != Process(st, Join(b)).core.stats.policy
  {
    hide FoldLines;
    hide SetsPolicy;
    hide DistinctKeys;
    hide AllGood;
    hide Join;
    hide Process;
    var lines := ReadLines(a);
    var i, j :| 0 <= i < j < |lines| && SetsPolicy(lines[i]) && SetsPolicy(lines[j]);
    b := Swap(a, i, j);
    assert ReadLines(b) == Swap(lines, i, j);
    SplitJoin(a);
    SplitJoin(b);
    SwapChangesPolicy(DraftOf(st.core), lines, i, j);
    PolicyOfProcess(st, Join(a));
    PolicyOfProcess(st, Join(b));
  }

  /** Exactly when the order of lines matters: in a message of distinct keys whose values
      all parse, every order gives the same session if and only if the message does
      not set the policy twice. */
  lemma OrderMattersExactly(st: Session, a: seq<string>)
    requires a != [] && AllOneLine(a) && AllGood(ReadLines(a)) && DistinctKeys(ReadLines(a))
    ensures !TwoPolicies(ReadLines(a)) <==>
              forall b :: b != [] && multiset(b) == multiset(a) ==> SameResult(st, a, b)
  {
    hide TwoPolicies;
    hide AllGood;
    hide DistinctKeys;
    hide Join;
    hide Process;
    if TwoPolicies(ReadLines(a)) {
      var b := PolicyOrderMatters(st, a);
      assert !SameResult(st, a, b);
    } else {
      forall b | b != [] && multiset(b) == multiset(a) ensures SameResult(st, a, b) {
        OrderIndependence(st, a, b);
      }
    }
  }

  // ---------- Every line ends up in its field ----------

  /** The value of an effect is what the draft now holds in the fields it writes. */
  predicate Shows(d: Draft, e: Effect) {
    match e
    case Nothing => true
    case TypeIs(t) => d.last == Some(t) && d.stats.state == StateOfType(t)
    case PolicyIs(p) => d.stats.policy == p
    case CodeIs(n) => d.stats.errorCode == n && d.file.errorCode == n
    case DescriptionIs(s) => d.stats.errorDescription == s && d.file.errorDescription == s
    case RemoteIs(b) => d.isRemote == b && d.stats.remote == b
    case EncryptionIs(b) => d.stats.encryption == b
    case ChunkSizeIs(n) => d.chunkSize == n
    case NumberIs(f, n) => f in d.stats.numbers && d.stats.numbers[f] == n
    case TextIs(f, s) => f in d.stats.texts && d.stats.texts[f] == s
    case FileNameIs(s) => d.file.name == s
    case FileNumberIs(f, n) => ShowsFileNumber(d.file, f, n)
    case FileChecksumIs(s) => d.file.checksum == s
    case FileChecksumTypeIs(s) => d.file.checksumType == s
  }

  predicate ShowsFileNumber(r: FileRecord, f: FileNumber, n: int) {
    match f
    case ContiguousBytes => r.contiguousBytes == n
    case SizeBytes => r.sizeBytes == n
    case StartByte => r.startByte == n
    case EndByte => r.endByte == n
    case WrittenBytes => r.writtenBytes == n
  }

  lemma ShowsAtOnce(d: Draft, e: Effect)
    ensures Shows(Apply(d, e), e)
  {
    hide StateOfType;
    hide FileStateOfType;
  }

  lemma ShowsAfterType(d: Draft, e: Effect, t: MessageType)
    requires Shows(d, e) && !e.TypeIs?
    ensures Shows(Apply(d, TypeIs(t)), e)
  {
    hide StateOfType;
    hide FileStateOfType;
  }

  lemma ShowsAfterFileNumber(d: Draft, e: Effect, f: FileNumber, n: int)
    requires Shows(d, e) && Compatible(e, FileNumberIs(f, n))
    ensures Shows(Apply(d, FileNumberIs(f, n)), e)
  {
    hide StateOfType;
    hide FileStateOfType;
  }

  lemma ShowsKept(d: Draft, e: Effect, other: Effect)
    requires Shows(d, e) && Compatible(e, other)
    ensures Shows(Apply(d, other), e)
  {
    hide StateOfType;
    hide FileStateOfType;
    hide CountType;
    hide SetFileNumber;
    if other.TypeIs? {
      ShowsAfterType(d, e, other.t);
    } else if other.FileNumberIs? {
      ShowsAfterFileNumber(d, e, other.fileNumber, other.n);
    }
  }

  lemma {:induction false} ShowsThrough(d: Draft, e: Effect, lines: seq<Line>)
    requires Shows(d, e) && AllGood(lines)
    requires forall i :: 0 <= i < |lines| ==> Compatible(e, StepOf(lines[i]).effect)
    ensures Shows(FoldLines(d, lines).0, e)
    decreases |lines|
  {
    hide Shows;
    hide Apply;
    hide StepOf;
    hide Compatible;
    if lines != [] {
      ShowsKept(d, e, StepOf(lines[0]).effect);
      ShowsThrough(Apply(d, StepOf(lines[0]).effect), e, lines[1..]);
    }
  }

  lemma {:induction false} AllShow(d: Draft, lines: seq<Line>, i: nat)
    requires AllGood(lines) && PairwiseCompatible(lines) && i < |lines|
    ensures Shows(FoldLines(d, lines).0, StepOf(lines[i]).effect)
    decreases |lines|
  {
    hide Shows;
    hide Apply;
    hide StepOf;
    hide Compatible;
    var e := StepOf(lines[0]).effect;
    if i == 0 {
      ShowsAtOnce(d, e);
      forall j | 0 <= j < |lines[1..]| ensures Compatible(e, StepOf(lines[1..][j]).effect) {
        assert CompatibleLines(lines[0], lines[j + 1]);
      }
      ShowsThrough(Apply(d, e), e, lines[1..]);
    } else {
      forall j, k | 0 <= j < k < |lines[1..]| ensures CompatibleLines(lines[1..][j], lines[1..][k]) {
        assert CompatibleLines(lines[j + 1], lines[k + 1]);
      }
      AllShow(Apply(d, e), lines[1..], i - 1);
    }
  }

  /** After a message with pairwise distinct keys whose values all parse, each key's
      value is in the field the key names, in the session, the file record or both,
      whatever order the lines came in. */
  lemma EveryLineShows(d: Draft, lines: seq<Line>)
    requires AllGood(lines) && DistinctKeys(lines) && !TwoPolicies(lines)
    ensures forall i :: 0 <= i < |lines| ==> Shows(FoldLines(d, lines).0, StepOf(lines[i]).effect)
  {
    hide Shows;
    hide StepOf;
    hide CompatibleLines;
    hide SetsPolicy;
    hide FoldLines;
    forall i, j | 0 <= i < j < |lines| ensures CompatibleLines(lines[i], lines[j]) {
      DistinctKeysCompatible(lines[i], lines[j]);
    }
    forall i | 0 <= i < |lines| ensures Shows(FoldLines(d, lines).0, StepOf(lines[i]).effect) {
      AllShow(d, lines, i);
    }
  }
}
