/**
 * What each kind of argument does with a whole sequence of tokens, proved
 * about the functions Feed, FlagStep and ValueStep.
 */
module ArgumentProperties {
  import opened Arguments

  /** How many tokens are dispatched as flags and equal one of `names`. */
  function Occurrences(names: seq<string>, tokens: seq<string>): nat
    decreases |tokens|
  {
    if tokens == [] then 0
    else (if IsFlag(tokens[0]) && tokens[0] in names then 1 else 0) + Occurrences(names, tokens[1..])
  }

  /** The tokens converted one by one, in order. */
  function Converted<T>(convert: string -> T, tokens: seq<string>): (r: seq<T>)
    ensures |r| == |tokens|
    ensures forall k :: 0 <= k < |r| ==> r[k] == convert(tokens[k])
    decreases |tokens|
  {
    if tokens == [] then [] else [convert(tokens[0])] + Converted(convert, tokens[1..])
  }

  /** The longest prefix of `tokens` in which no token starts with '-'. */
  function ValuePrefix(tokens: seq<string>): (p: seq<string>)
    ensures p <= tokens
    ensures forall k :: 0 <= k < |p| ==> !IsFlag(p[k])
    ensures |p| < |tokens| ==> IsFlag(tokens[|p|])
    decreases |tokens|
  {
    if tokens == [] || IsFlag(tokens[0]) then [] else [tokens[0]] + ValuePrefix(tokens[1..])
  }

  /** Showing an argument `a + b` is showing it `a`, then (unless it threw) `b`. */
  lemma {:induction false} FeedAppend<T>(d: Descriptor<T>, s: ArgState<T>, a: seq<string>, b: seq<string>)
    requires Shaped(d.nargs, s.value)
    ensures Feed(d, s, a + b) == match Feed(d, s, a)
                                  case Err(e) => Err(e)
                                  case Ok(next) => Feed(d, next, b)
    decreases |a|
  {
    if a == [] {
      assert a + b == b;
    } else {
      assert (a + b)[0] == a[0];
      assert (a + b)[1..] == a[1..] + b;
      match Step(d, s, a[0])
      case Err(e) =>
      case Ok(next) => FeedAppend(d, next, a[1..], b);
    }
  }

  /**
   * A boolean flag counts the tokens that name it: none leaves it false in
   * Start, one sets it true and closes it, a second one throws a
   * duplicate-option error. Value tokens never touch it.
   */
  lemma {:induction false} BooleanCountsOccurrences<T>(d: Descriptor<T>, s: ArgState<T>, tokens: seq<string>)
    requires KindOf(d) == Boolean
    requires s == ArgState(Start, Flag(false)) || s == ArgState(End, Flag(true))
    ensures var seen := (if s.phase == End then 1 else 0) + Occurrences(d.names, tokens);
            && (Feed(d, s, tokens).Err? <==> seen >= 2)
            && (Feed(d, s, tokens).Err? ==> Feed(d, s, tokens).error.DuplicateOption?)
            && (seen == 0 ==> Feed(d, s, tokens) == Ok(ArgState(Start, Flag(false))))
            && (seen == 1 ==> Feed(d, s, tokens) == Ok(ArgState(End, Flag(true))))
    decreases |tokens|
  {
    if tokens != [] {
      match Step(d, s, tokens[0])
      case Err(e) =>
      case Ok(next) => BooleanCountsOccurrences(d, next, tokens[1..]);
    }
  }

  /**
   * A named argument (boolean, single- or multi-value) that is still in
   * Start and never sees one of its names keeps its state, whatever else
   * arrives: an argument that is not given keeps its default value.
   */
  lemma {:induction false} UnnamedStaysUnchanged<T>(d: Descriptor<T>, s: ArgState<T>, tokens: seq<string>)
    requires KindOf(d) != Positional && Shaped(d.nargs, s.value) && s.phase == Start
    requires Occurrences(d.names, tokens) == 0
    ensures Feed(d, s, tokens) == Ok(s)
    decreases |tokens|
  {
    if tokens != [] {
      UnnamedStaysUnchanged(d, s, tokens[1..]);
    }
  }

  /**
   * A single-value option that is seeking skips flags that are not its own
   * and takes the first value token that follows, converted; it is then closed.
   */
  lemma {:induction false} SingleTakesNextValue<T>(d: Descriptor<T>, s: ArgState<T>, flags: seq<string>, v: string)
    requires KindOf(d) == SingleValue && s.phase == Seeking && s.value.Single?
    requires forall k :: 0 <= k < |flags| ==> IsFlag(flags[k]) && flags[k] !in d.names
    requires !IsFlag(v)
    ensures Feed(d, s, flags + [v]) == Ok(ArgState(End, Single(d.convert(v))))
    decreases |flags|
  {
    if flags == [] {
      assert flags + [v] == [v];
    } else {
      assert (flags + [v])[1..] == flags[1..] + [v];
      SingleTakesNextValue(d, s, flags[1..], v);
    }
  }

  /** A seeking single-value option that meets its own name throws a repeated-flag error. */
  lemma SingleMeetsOwnName<T>(d: Descriptor<T>, s: ArgState<T>, token: string)
    requires KindOf(d) == SingleValue && s.phase == Seeking && s.value.Single?
    requires IsFlag(token) && token in d.names
    ensures Step(d, s, token) == Err(RepeatedFlag(token))
  {
  }

  /** Flags that are not its own leave a seeking single-value option as it is. */
  lemma {:induction false} SingleSkipsForeignFlags<T>(d: Descriptor<T>, s: ArgState<T>, flags: seq<string>)
    requires KindOf(d) == SingleValue && s.phase == Seeking && s.value.Single?
    requires forall k :: 0 <= k < |flags| ==> IsFlag(flags[k]) && flags[k] !in d.names
    ensures Feed(d, s, flags) == Ok(s)
    decreases |flags|
  {
    if flags != [] {
      SingleSkipsForeignFlags(d, s, flags[1..]);
    }
  }

  /**
   * A single-value option named with no value token after it (only other
   * flags, or nothing) keeps its value-initialised default without an error.
   */
  lemma SingleNamedWithoutValueKeepsDefault<T>(d: Descriptor<T>, before: seq<string>, name: string, flags: seq<string>)
    requires KindOf(d) == SingleValue
    requires Occurrences(d.names, before) == 0 && name in d.names && IsFlag(name)
    requires forall k :: 0 <= k < |flags| ==> IsFlag(flags[k]) && flags[k] !in d.names
    ensures Feed(d, Initial(d), before + [name] + flags) == Ok(ArgState(Seeking, Single(d.initial)))
  {
    var s0 := Initial(d);
    UnnamedStaysUnchanged(d, s0, before);
    FeedAppend(d, s0, before, [name]);
    var s1 := ArgState(Seeking, s0.value);
    assert Feed(d, s0, [name]) == Ok(s1);
    FeedAppend(d, s0, before + [name], flags);
    SingleSkipsForeignFlags(d, s1, flags);
  }

  /**
   * A single-value or multi-value option may be named at most once: counting
   * one for an option already named (out of Start), a second naming makes
   * the argument throw.
   */
  lemma {:induction false} NamedTwiceFails<T>(d: Descriptor<T>, s: ArgState<T>, tokens: seq<string>)
    requires KindOf(d) == SingleValue || KindOf(d) == MultiValue
    requires Shaped(d.nargs, s.value)
    requires (if s.phase == Start then 0 else 1) + Occurrences(d.names, tokens) >= 2
    ensures Feed(d, s, tokens).Err?
    decreases |tokens|
  {
    if Step(d, s, tokens[0]).Ok? {
      var next := Step(d, s, tokens[0]).next;
      assert s.phase == Start && !(IsFlag(tokens[0]) && tokens[0] in d.names) ==> next == s;
      NamedTwiceFails(d, next, tokens[1..]);
    }
  }

  /**
   * Once a single-value or multi-value option has been named, naming it
   * again throws (a repeated-flag error for a single-value option, a
   * duplicate-option error for a multi-value one); in End it keeps its
   * state for as long as it is not named again.
   */
  lemma {:induction false} ClosedOptionStays<T>(d: Descriptor<T>, s: ArgState<T>, tokens: seq<string>)
    requires KindOf(d) == SingleValue || KindOf(d) == MultiValue
    requires Shaped(d.nargs, s.value) && s.phase == End
    ensures Feed(d, s, tokens).Ok? <==> Occurrences(d.names, tokens) == 0
    ensures Feed(d, s, tokens).Ok? ==> Feed(d, s, tokens).next == s
    ensures Feed(d, s, tokens).Err? ==>
              if KindOf(d) == SingleValue then Feed(d, s, tokens).error.RepeatedFlag?
              else Feed(d, s, tokens).error.DuplicateOption?
    decreases |tokens|
  {
    if tokens != [] {
      ClosedOptionStays(d, s, tokens[1..]);
    }
  }

  /** A seeking multi-value option appends every value token, converted, in arrival order. */
  lemma {:induction false} MultiCollects<T>(d: Descriptor<T>, s: ArgState<T>, values: seq<string>)
    requires KindOf(d) == MultiValue && s.phase == Seeking && s.value.Multi?
    requires forall k :: 0 <= k < |values| ==> !IsFlag(values[k])
    ensures Feed(d, s, values) == Ok(ArgState(Seeking, Multi(s.value.items + Converted(d.convert, values))))
    decreases |values|
  {
    if values != [] {
      var next := ArgState(Seeking, Multi(s.value.items + [d.convert(values[0])]));
      assert Step(d, s, values[0]) == Ok(next);
      MultiCollects(d, next, values[1..]);
      ConvertedCons(d.convert, s.value.items, values);
    }
  }

  /**
   * How a seeking multi-value option meets a flag: its own name again is a
   * duplicate-option error whatever it has collected; another flag closes
   * it if it holds a value and otherwise throws a no-values error that
   * names that other flag.
   */
  lemma MultiMeetsFlag<T>(d: Descriptor<T>, s: ArgState<T>, token: string)
    requires KindOf(d) == MultiValue && s.phase == Seeking && s.value.Multi? && IsFlag(token)
    ensures token in d.names ==> Step(d, s, token) == Err(DuplicateOption(token))
    ensures token !in d.names && s.value.items == [] ==> Step(d, s, token) == Err(NoValues(token))
    ensures token !in d.names && s.value.items != [] ==> Step(d, s, token) == Ok(ArgState(End, s.value))
  {
  }

  /**
   * Named, then given the values `values`, a multi-value option that was
   * not named before holds exactly those values, converted, in order.
   */
  lemma MultiNamedThenValues<T>(d: Descriptor<T>, before: seq<string>, name: string, values: seq<string>)
    requires KindOf(d) == MultiValue
    requires Occurrences(d.names, before) == 0 && name in d.names && IsFlag(name)
    requires forall k :: 0 <= k < |values| ==> !IsFlag(values[k])
    ensures Feed(d, Initial(d), before + [name] + values) == Ok(ArgState(Seeking, Multi(Converted(d.convert, values))))
  {
    var s0 := Initial(d);
    UnnamedStaysUnchanged(d, s0, before);
    FeedAppend(d, s0, before, [name]);
    var s1 := ArgState(Seeking, s0.value);
    assert Feed(d, s0, [name]) == Ok(s1);
    FeedAppend(d, s0, before + [name], values);
    MultiCollects(d, s1, values);
    assert s0.value.items + Converted(d.convert, values) == Converted(d.convert, values);
  }

  /**
   * The positional argument never throws. From Start or Seeking it appends
   * the longest prefix of value tokens, converted in order, and the first
   * flag closes it; once closed nothing changes it.
   */
  lemma {:induction false} PositionalTakesValuePrefix<T>(d: Descriptor<T>, s: ArgState<T>, tokens: seq<string>)
    requires KindOf(d) == Positional && s.value.Multi?
    ensures Feed(d, s, tokens).Ok?
    ensures s.phase == End ==> Feed(d, s, tokens).next == s
    ensures s.phase != End ==>
              Feed(d, s, tokens).next.value == Multi(s.value.items + Converted(d.convert, ValuePrefix(tokens)))
    ensures s.phase != End ==>
              Feed(d, s, tokens).next.phase ==
                if |ValuePrefix(tokens)| < |tokens| then End
                else if tokens == [] then s.phase
                else Seeking
    decreases |tokens|
  {
    if tokens != [] {
      var next := Step(d, s, tokens[0]).next;
      assert Feed(d, s, tokens) == Feed(d, next, tokens[1..]);
      PositionalTakesValuePrefix(d, next, tokens[1..]);
      if s.phase != End && !IsFlag(tokens[0]) {
        PositionalValueStep(d, s, tokens);
      }
    }
  }

  /** One value token taken by an open positional argument, seen from the whole sequence. */
  lemma PositionalValueStep<T>(d: Descriptor<T>, s: ArgState<T>, tokens: seq<string>)
    requires KindOf(d) == Positional && s.value.Multi? && s.phase != End
    requires tokens != [] && !IsFlag(tokens[0])
    ensures Step(d, s, tokens[0]).next.value.items + Converted(d.convert, ValuePrefix(tokens[1..]))
            == s.value.items + Converted(d.convert, ValuePrefix(tokens))
    ensures |ValuePrefix(tokens)| < |tokens| <==> |ValuePrefix(tokens[1..])| < |tokens[1..]|
  {
    var p := ValuePrefix(tokens);
    assert p == [tokens[0]] + ValuePrefix(tokens[1..]);
    assert p[0] == tokens[0] && p[1..] == ValuePrefix(tokens[1..]);
    ConvertedCons(d.convert, s.value.items, p);
  }

  /** Appending the first token converted, then the rest converted, is appending them all converted. */
  lemma ConvertedCons<T>(convert: string -> T, items: seq<T>, tokens: seq<string>)
    requires tokens != []
    ensures items + [convert(tokens[0])] + Converted(convert, tokens[1..]) == items + Converted(convert, tokens)
  {
    var x := convert(tokens[0]);
    var tail := Converted(convert, tokens[1..]);
    assert Converted(convert, tokens) == [x] + tail;
    assert items + [x] + tail == items + ([x] + tail);
  }

  /** Positional capture from a fresh argument. */
  lemma PositionalFromStart<T>(d: Descriptor<T>, tokens: seq<string>)
    requires KindOf(d) == Positional
    ensures Feed(d, Initial(d), tokens) == Ok(ArgState(
              if |ValuePrefix(tokens)| < |tokens| then End else if tokens == [] then Start else Seeking,
              Multi(Converted(d.convert, ValuePrefix(tokens)))))
  {
    PositionalTakesValuePrefix(d, Initial(d), tokens);
    assert [] + Converted(d.convert, ValuePrefix(tokens)) == Converted(d.convert, ValuePrefix(tokens));
  }
}
