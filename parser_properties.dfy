/**
 * Properties of the scan: declaration-order dispatch, the precedence of
 * help and version requests, and the fact that, without such requests,
 * every argument ends as if it alone had been shown the whole command line.
 */
module ParserProperties {
  import opened Arguments
  import opened ArgumentProperties
  import opened Parser

  /**
   * Dispatch order: the arguments from `i` on are shown the token in
   * declaration order. If none throws, each ends in its own Step's state.
   * If argument `k` throws, the ones before it have taken the token, it and
   * the ones after it are unchanged, and its error is the dispatch's error.
   */
  lemma {:induction false} BroadcastInOrder<T>(ds: seq<Descriptor<T>>, ss: seq<ArgState<T>>, token: string, i: nat)
    requires AllShaped(ds, ss) && i <= |ds|
    ensures var b := BroadcastFrom(ds, ss, token, i);
            && (forall j :: 0 <= j < i ==> b.states[j] == ss[j])
            && (b.outcome.Pass? ==> forall j :: i <= j < |ds| ==> Step(ds[j], ss[j], token) == Ok(b.states[j]))
            && (b.outcome.Fail? ==>
                  exists k :: i <= k < |ds|
                    && Step(ds[k], ss[k], token) == Err(b.outcome.error)
                    && (forall j :: i <= j < k ==> Step(ds[j], ss[j], token) == Ok(b.states[j]))
                    && (forall j :: k <= j < |ds| ==> b.states[j] == ss[j]))
    decreases |ds| - i
  {
    if i < |ds| {
      match Step(ds[i], ss[i], token)
      case Err(e) =>
        assert Step(ds[i], ss[i], token) == Err(e);
      case Ok(next) =>
        var ss' := ss[i := next];
        BroadcastInOrder(ds, ss', token, i + 1);
        var b := BroadcastFrom(ds, ss', token, i + 1);
        assert forall j :: i < j < |ds| ==> ss'[j] == ss[j];
        if b.outcome.Fail? {
          var k :| i + 1 <= k < |ds|
                   && Step(ds[k], ss'[k], token) == Err(b.outcome.error)
                   && (forall j :: i + 1 <= j < k ==> Step(ds[j], ss'[j], token) == Ok(b.states[j]))
                   && (forall j :: k <= j < |ds| ==> b.states[j] == ss'[j]);
          assert Step(ds[k], ss[k], token) == Err(b.outcome.error);
        }
    }
  }

  /**
   * A version or help request ends the scan at once: the tokens before it
   * have had their effect (if none of them threw), and the tokens after it
   * are never seen.
   */
  lemma {:induction false} MetaTokenEndsScan<T>(ds: seq<Descriptor<T>>, ss: seq<ArgState<T>>,
                                                before: seq<string>, meta: string, after: seq<string>)
    requires AllShaped(ds, ss) && IsMeta(meta)
    requires Run(ds, ss, before).result == Done
    ensures Run(ds, ss, before + [meta] + after)
         == Scan(Run(ds, ss, before).states, if IsVersionRequest(meta) then Version else Help(HelpLines(ds)))
    decreases |before|
  {
    var tokens := before + [meta] + after;
    if before == [] {
      assert tokens[0] == meta;
    } else {
      assert tokens[0] == before[0];
      assert tokens[1..] == before[1..] + [meta] + after;
      var b := BroadcastFrom(ds, ss, before[0], 0);
      MetaTokenEndsScan(ds, b.states, before[1..], meta, after);
    }
  }

  /**
   * A throw ends the scan at once: the first argument that throws on the
   * first throwing token decides the error, the arguments keep the states
   * they had at the throw, and the tokens after it are never seen.
   */
  lemma {:induction false} FailureEndsScan<T>(ds: seq<Descriptor<T>>, ss: seq<ArgState<T>>,
                                              before: seq<string>, t: string, after: seq<string>)
    requires AllShaped(ds, ss) && !IsMeta(t)
    requires Run(ds, ss, before).result == Done
    requires BroadcastFrom(ds, Run(ds, ss, before).states, t, 0).outcome.Fail?
    ensures var b := BroadcastFrom(ds, Run(ds, ss, before).states, t, 0);
            Run(ds, ss, before + [t] + after) == Scan(b.states, Failed(b.outcome.error))
    decreases |before|
  {
    var tokens := before + [t] + after;
    if before == [] {
      assert tokens[0] == t;
    } else {
      assert tokens[0] == before[0];
      assert tokens[1..] == before[1..] + [t] + after;
      var b := BroadcastFrom(ds, ss, before[0], 0);
      FailureEndsScan(ds, b.states, before[1..], t, after);
    }
  }

  /**
   * Independence of the arguments: on a command line without help or
   * version requests the scan finishes exactly when every argument, shown
   * all the tokens on its own, would not throw; it then leaves each
   * argument in that argument's own final state. A failed scan reports an
   * error that one argument on its own would throw.
   */
  lemma {:induction false} ScanIsPerArgument<T>(ds: seq<Descriptor<T>>, ss: seq<ArgState<T>>, tokens: seq<string>)
    requires AllShaped(ds, ss)
    requires forall k :: 0 <= k < |tokens| ==> !IsMeta(tokens[k])
    ensures var r := Run(ds, ss, tokens);
            && (r.result == Done <==> forall i :: 0 <= i < |ds| ==> Feed(ds[i], ss[i], tokens).Ok?)
            && (r.result == Done ==> forall i :: 0 <= i < |ds| ==> Feed(ds[i], ss[i], tokens) == Ok(r.states[i]))
            && (r.result.Failed? ==> exists i :: 0 <= i < |ds| && Feed(ds[i], ss[i], tokens) == Err(r.result.error))
            && (r.result == Done || r.result.Failed?)
    decreases |tokens|
  {
    if tokens != [] {
      var t := tokens[0];
      assert !IsMeta(t);
      BroadcastInOrder(ds, ss, t, 0);
      var b := BroadcastFrom(ds, ss, t, 0);
      if b.outcome.Fail? {
        var k :| 0 <= k < |ds| && Step(ds[k], ss[k], t) == Err(b.outcome.error);
        assert Feed(ds[k], ss[k], tokens) == Err(b.outcome.error);
      } else {
        forall k | 0 <= k < |tokens[1..]| ensures !IsMeta(tokens[1..][k]) {
          assert tokens[1..][k] == tokens[k + 1];
        }
        ScanIsPerArgument(ds, b.states, tokens[1..]);
        forall i | 0 <= i < |ds| ensures Feed(ds[i], ss[i], tokens) == Feed(ds[i], b.states[i], tokens[1..]) {
          assert Step(ds[i], ss[i], t) == Ok(b.states[i]);
        }
      }
    }
  }

  /**
   * The positional argument of a finished parse holds the longest prefix of
   * value tokens, converted in order.
   */
  lemma PositionalGetsValuePrefix<T>(ds: seq<Descriptor<T>>, tokens: seq<string>, i: nat)
    requires i < |ds| && KindOf(ds[i]) == Positional
    requires Run(ds, InitialStates(ds), tokens).result == Done
    ensures Run(ds, InitialStates(ds), tokens).states[i].value == Multi(Converted(ds[i].convert, ValuePrefix(tokens)))
  {
    ScanIsPerArgument(ds, InitialStates(ds), tokens);
    PositionalFromStart(ds[i], tokens);
  }

  /**
   * A boolean flag of a finished parse is true exactly when one token named
   * it; a flag named twice makes the parse fail.
   */
  lemma BooleanIsPresence<T>(ds: seq<Descriptor<T>>, tokens: seq<string>, i: nat)
    requires i < |ds| && KindOf(ds[i]) == Boolean
    requires forall k :: 0 <= k < |tokens| ==> !IsMeta(tokens[k])
    ensures Occurrences(ds[i].names, tokens) >= 2 ==> Run(ds, InitialStates(ds), tokens).result.Failed?
    ensures Run(ds, InitialStates(ds), tokens).result == Done ==>
              Run(ds, InitialStates(ds), tokens).states[i].value == Flag(Occurrences(ds[i].names, tokens) == 1)
  {
    var ss := InitialStates(ds);
    var r := Run(ds, ss, tokens);
    ScanIsPerArgument(ds, ss, tokens);
    assert ss[i] == ArgState(Start, Flag(false));
    BooleanCountsOccurrences(ds[i], ss[i], tokens);
    if r.result == Done {
      assert Feed(ds[i], ss[i], tokens) == Ok(r.states[i]);
    }
  }

  /**
   * A parse in which a single-value or multi-value option is named twice
   * fails.
   */
  lemma OptionNamedTwiceFailsParse<T>(ds: seq<Descriptor<T>>, tokens: seq<string>, i: nat)
    requires i < |ds| && (KindOf(ds[i]) == SingleValue || KindOf(ds[i]) == MultiValue)
    requires forall k :: 0 <= k < |tokens| ==> !IsMeta(tokens[k])
    requires Occurrences(ds[i].names, tokens) >= 2
    ensures Run(ds, InitialStates(ds), tokens).result.Failed?
  {
    ScanIsPerArgument(ds, InitialStates(ds), tokens);
    NamedTwiceFails(ds[i], InitialStates(ds)[i], tokens);
  }

  /**
   * A single-value option of a finished parse that was named but given no
   * value token after it holds its value-initialised default.
   */
  lemma SingleWithoutValueKeepsDefault<T>(ds: seq<Descriptor<T>>, i: nat,
                                          before: seq<string>, name: string, flags: seq<string>)
    requires i < |ds| && KindOf(ds[i]) == SingleValue
    requires Occurrences(ds[i].names, before) == 0 && name in ds[i].names && IsFlag(name)
    requires forall k :: 0 <= k < |flags| ==> IsFlag(flags[k]) && flags[k] !in ds[i].names
    requires Run(ds, InitialStates(ds), before + [name] + flags).result == Done
    ensures Run(ds, InitialStates(ds), before + [name] + flags).states[i] == ArgState(Seeking, Single(ds[i].initial))
  {
    var tokens := before + [name] + flags;
    ScanIsPerArgument(ds, InitialStates(ds), tokens);
    SingleNamedWithoutValueKeepsDefault(ds[i], before, name, flags);
  }

  /**
   * A named argument of a finished parse that no token named holds its
   * default value: false, the value-initialised `T`, or no values.
   */
  lemma UnnamedKeepsDefault<T>(ds: seq<Descriptor<T>>, tokens: seq<string>, i: nat)
    requires i < |ds| && KindOf(ds[i]) != Positional
    requires Occurrences(ds[i].names, tokens) == 0
    requires Run(ds, InitialStates(ds), tokens).result == Done
    ensures Run(ds, InitialStates(ds), tokens).states[i] == Initial(ds[i])
  {
    ScanIsPerArgument(ds, InitialStates(ds), tokens);
    UnnamedStaysUnchanged(ds[i], Initial(ds[i]), tokens);
  }

  /** The sample descriptors below convert a token to itself. */
  function Identity(token: string): string
  {
    token
  }

  /** A token shown to a parser with one argument. */
  lemma BroadcastToOne<T>(d: Descriptor<T>, s: ArgState<T>, token: string)
    requires Shaped(d.nargs, s.value)
    ensures BroadcastFrom([d], [s], token, 0) == match Step(d, s, token)
                                                case Err(e) => Dispatch([s], Fail(e))
                                                case Ok(next) => Dispatch([next], Pass)
  {
    match Step(d, s, token)
    case Err(e) =>
    case Ok(next) =>
      assert [s][0 := next] == [next];
  }

  /** A token shown to a parser with two arguments: the first, then the second. */
  lemma BroadcastToTwo<T>(d0: Descriptor<T>, d1: Descriptor<T>, s0: ArgState<T>, s1: ArgState<T>, token: string)
    requires Shaped(d0.nargs, s0.value) && Shaped(d1.nargs, s1.value)
    ensures BroadcastFrom([d0, d1], [s0, s1], token, 0) ==
              match Step(d0, s0, token)
              case Err(e) => Dispatch([s0, s1], Fail(e))
              case Ok(n0) =>
                match Step(d1, s1, token)
                case Err(e) => Dispatch([n0, s1], Fail(e))
                case Ok(n1) => Dispatch([n0, n1], Pass)
  {
    var ds := [d0, d1];
    match Step(d0, s0, token)
    case Err(e) =>
    case Ok(n0) =>
      assert [s0, s1][0 := n0] == [n0, s1];
      match Step(d1, s1, token)
      case Err(e) =>
        assert BroadcastFrom(ds, [n0, s1], token, 1) == Dispatch([n0, s1], Fail(e));
      case Ok(n1) =>
        assert [n0, s1][1 := n1] == [n0, n1];
        assert BroadcastFrom(ds, [n0, s1], token, 1) == BroadcastFrom(ds, [n0, n1], token, 2);
  }

  /** One token of a scan that no argument throws on. */
  lemma RunPasses<T>(ds: seq<Descriptor<T>>, ss: seq<ArgState<T>>, tokens: seq<string>, ss': seq<ArgState<T>>)
    requires AllShaped(ds, ss) && tokens != [] && !IsMeta(tokens[0])
    requires BroadcastFrom(ds, ss, tokens[0], 0) == Dispatch(ss', Pass)
    ensures Run(ds, ss, tokens) == Run(ds, ss', tokens[1..])
  {
  }

  /**
   * Repeating a multi-value option is a duplicate-option error even when
   * it has collected values, and so is naming it twice in a row.
   */
  lemma RepeatedMultiIsDuplicate()
    ensures var names := Descriptor(["-n"], Many, Identity, "");
            && Run([names], InitialStates([names]), ["-n", "a", "b", "-n"]).result == Failed(DuplicateOption("-n"))
            && Run([names], InitialStates([names]), ["-n", "-n"]).result == Failed(DuplicateOption("-n"))
  {
    var n := Descriptor(["-n"], Many, Identity, "");
    var a0, a1 := ArgState(Start, Multi([])), ArgState(Seeking, Multi([]));
    var a2, a3 := ArgState(Seeking, Multi(["a"])), ArgState(Seeking, Multi(["a", "b"]));
    assert InitialStates([n]) == [a0];
    var tokens := ["-n", "a", "b", "-n"];
    BroadcastToOne(n, a0, "-n");
    RunPasses([n], [a0], tokens, [a1]);
    assert !IsFlag("a") && !IsFlag("b");
    assert [] + [Identity("a")] == ["a"] && ["a"] + [Identity("b")] == ["a", "b"];
    BroadcastToOne(n, a1, "a");
    RunPasses([n], [a1], tokens[1..], [a2]);
    BroadcastToOne(n, a2, "b");
    RunPasses([n], [a2], tokens[2..], [a3]);
    assert tokens[3..] == ["-n"];
    BroadcastToOne(n, a3, "-n");
    RunPasses([n], [a0], ["-n", "-n"], [a1]);
    assert ["-n", "-n"][1..] == ["-n"];
    BroadcastToOne(n, a1, "-n");
  }

  /**
   * The no-values error is raised by a different flag arriving while a
   * multi-value option holds nothing, and names that other flag; a
   * multi-value option named last, with no values, raises nothing.
   */
  lemma NoValuesNamesTheOtherFlag()
    ensures var names := Descriptor(["-n"], Many, Identity, "");
            var quiet := Descriptor(["-q"], None, Identity, "");
            && Run([names, quiet], InitialStates([names, quiet]), ["-n", "-q"]).result == Failed(NoValues("-q"))
            && Run([names, quiet], InitialStates([names, quiet]), ["-q", "-n"])
               == Scan([ArgState(Seeking, Multi([])), ArgState(End, Flag(true))], Done)
  {
    var n, q := Descriptor(["-n"], Many, Identity, ""), Descriptor(["-q"], None, Identity, "");
    var n0, n1 := ArgState(Start, Multi([])), ArgState(Seeking, Multi([]));
    var q0, q1 := ArgState(Start, Flag(false)), ArgState(End, Flag(true));
    assert InitialStates([n, q]) == [n0, q0];
    BroadcastToTwo(n, q, n0, q0, "-n");
    RunPasses([n, q], [n0, q0], ["-n", "-q"], [n1, q0]);
    assert ["-n", "-q"][1..] == ["-q"];
    BroadcastToTwo(n, q, n1, q0, "-q");
    BroadcastToTwo(n, q, n0, q0, "-q");
    RunPasses([n, q], [n0, q0], ["-q", "-n"], [n0, q1]);
    assert ["-q", "-n"][1..] == ["-n"];
    BroadcastToTwo(n, q, n0, q1, "-n");
    RunPasses([n, q], [n0, q1], ["-n"], [n1, q1]);
  }

  /**
   * The scan stops at the first throw: in `-n -q -q` the boolean declared
   * first takes the first `-q`, the multi-value option then throws a
   * no-values error on it, and the second `-q` (a duplicate for the
   * boolean) is never seen.
   */
  lemma ThrowHidesLaterTokens()
    ensures var quiet := Descriptor(["-q"], None, Identity, "");
            var names := Descriptor(["-n"], Many, Identity, "");
            Run([quiet, names], InitialStates([quiet, names]), ["-n", "-q", "-q"])
            == Scan([ArgState(End, Flag(true)), ArgState(Seeking, Multi([]))], Failed(NoValues("-q")))
  {
    var q, n := Descriptor(["-q"], None, Identity, ""), Descriptor(["-n"], Many, Identity, "");
    var q0, q1: ArgState<string> := ArgState(Start, Flag(false)), ArgState(End, Flag(true));
    var n0, n1: ArgState<string> := ArgState(Start, Multi([])), ArgState(Seeking, Multi([]));
    var tokens := ["-n", "-q", "-q"];
    assert InitialStates([q, n]) == [q0, n0];
    BroadcastToTwo(q, n, q0, n0, "-n");
    RunPasses([q, n], [q0, n0], tokens, [q0, n1]);
    assert tokens[1..] == ["-q", "-q"];
    BroadcastToTwo(q, n, q0, n1, "-q");
  }

  /**
   * When an argument throws, the arguments declared before it have already
   * taken the token: the boolean declared first is set even though the
   * multi-value option declared second throws on the same token.
   */
  lemma EarlierArgumentsKeepTheirUpdate()
    ensures var quiet := Descriptor(["-q"], None, Identity, "");
            var names := Descriptor(["-n"], Many, Identity, "");
            Run([quiet, names], InitialStates([quiet, names]), ["-n", "-q"])
            == Scan([ArgState(End, Flag(true)), ArgState(Seeking, Multi([]))], Failed(NoValues("-q")))
  {
    var q, n := Descriptor(["-q"], None, Identity, ""), Descriptor(["-n"], Many, Identity, "");
    var n0, n1 := ArgState(Start, Multi([])), ArgState(Seeking, Multi([]));
    var q0: ArgState<string>, q1: ArgState<string> := ArgState(Start, Flag(false)), ArgState(End, Flag(true));
    assert InitialStates([q, n]) == [q0, n0];
    BroadcastToTwo(q, n, q0, n0, "-n");
    RunPasses([q, n], [q0, n0], ["-n", "-q"], [q0, n1]);
    assert ["-n", "-q"][1..] == ["-q"];
    BroadcastToTwo(q, n, q0, n1, "-q");
  }

  /**
   * A single-value option takes the next value token, skipping other
   * flags; named last, with no value after it, it keeps its default
   * without an error; named again, it throws a repeated-flag error.
   */
  lemma SingleValueSamples()
    ensures var target := Descriptor(["-t"], One, Identity, "");
            var quiet := Descriptor(["-q"], None, Identity, "");
            && Run([target, quiet], InitialStates([target, quiet]), ["-t", "-q", "42"])
               == Scan([ArgState(End, Single("42")), ArgState(End, Flag(true))], Done)
            && Run([target], InitialStates([target]), ["-t"]) == Scan([ArgState(Seeking, Single(""))], Done)
            && Run([target], InitialStates([target]), ["-t", "1", "-t"]).result == Failed(RepeatedFlag("-t"))
            && Run([target], InitialStates([target]), ["-t", "-t"]).result == Failed(RepeatedFlag("-t"))
  {
    var t, q := Descriptor(["-t"], One, Identity, ""), Descriptor(["-q"], None, Identity, "");
    var t0, t1 := ArgState(Start, Single("")), ArgState(Seeking, Single(""));
    var t2, t3 := ArgState(End, Single("42")), ArgState(End, Single("1"));
    var q0, q1 := ArgState(Start, Flag(false)), ArgState(End, Flag(true));
    assert InitialStates([t, q]) == [t0, q0];
    var tokens := ["-t", "-q", "42"];
    BroadcastToTwo(t, q, t0, q0, "-t");
    RunPasses([t, q], [t0, q0], tokens, [t1, q0]);
    BroadcastToTwo(t, q, t1, q0, "-q");
    RunPasses([t, q], [t1, q0], tokens[1..], [t1, q1]);
    assert tokens[2..] == ["42"];
    BroadcastToTwo(t, q, t1, q1, "42");
    RunPasses([t, q], [t1, q1], tokens[2..], [t2, q1]);

    assert InitialStates([t]) == [t0];
    BroadcastToOne(t, t0, "-t");
    RunPasses([t], [t0], ["-t"], [t1]);
    var again := ["-t", "1", "-t"];
    RunPasses([t], [t0], again, [t1]);
    BroadcastToOne(t, t1, "1");
    RunPasses([t], [t1], again[1..], [t3]);
    assert again[2..] == ["-t"];
    BroadcastToOne(t, t3, "-t");
    RunPasses([t], [t0], ["-t", "-t"], [t1]);
    assert ["-t", "-t"][1..] == ["-t"];
    BroadcastToOne(t, t1, "-t");
  }

  /** Help wins over everything after it, even a flag that would throw. */
  lemma HelpComesFirst()
    ensures var quiet := Descriptor(["-q"], None, Identity, "");
            var files := Descriptor([], Many, Identity, "");
            Run([quiet, files], InitialStates([quiet, files]), ["a", "--help", "-q", "-q"])
            == Scan([ArgState(Start, Flag(false)), ArgState(Seeking, Multi(["a"]))],
                    Help(["-q", "Positional Arguments..."]))
  {
    var q, f := Descriptor(["-q"], None, Identity, ""), Descriptor([], Many, Identity, "");
    var q0, f0, f1 := ArgState(Start, Flag(false)), ArgState(Start, Multi([])), ArgState(Seeking, Multi(["a"]));
    assert InitialStates([q, f]) == [q0, f0];
    var tokens := ["a", "--help", "-q", "-q"];
    assert !IsFlag("a") && [] + [Identity("a")] == ["a"];
    BroadcastToTwo(q, f, q0, f0, "a");
    RunPasses([q, f], [q0, f0], tokens, [q0, f1]);
    assert tokens[1..][0] == "--help";
    assert HelpLines([q, f]) == ["-q", "Positional Arguments..."];
  }
}
