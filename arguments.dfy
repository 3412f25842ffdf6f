/**
 * The per-argument automata of the command-line parser.
 *
 * Every declared argument is a three-phase automaton (Start, Seeking, End)
 * that is shown every command-line token: tokens that start with '-' through
 * TryParseFlag, all others through TryParseValue. There are four kinds of
 * argument: a boolean flag (no values), a single-value option, a named
 * multi-value option and the positional catch-all (a multi-value argument
 * with no names). The functions FlagStep and ValueStep give the meaning of
 * one token; the class Argument is the object the parser mutates in place.
 */
module Arguments {

  /** Phase of one argument while the command line is scanned. */
  datatype ParseState = Start | Seeking | End

  /** How many value tokens an argument takes. */
  datatype NArgs = None | One | Many

  /** The errors the automata throw; each carries the flag token that caused it. */
  datatype ParseError =
    | DuplicateOption(flag: string)  // a boolean or multi-value name seen again
    | RepeatedFlag(flag: string)     // a single-value name seen again
    | NoValues(flag: string)         // a multi-value option closed by another flag before any value

  /** What TryParseFlag does: return normally, or throw. */
  datatype Outcome = Pass | Fail(error: ParseError)

  /** The stored value: `bool` for None, one `T` for One, a vector of `T` for Many. */
  datatype Value<T> = Flag(present: bool) | Single(item: T) | Multi(items: seq<T>)

  /** The mutable part of an argument. */
  datatype ArgState<T> = ArgState(phase: ParseState, value: Value<T>)

  /** The effect of one token on one argument: its new state, or the error it throws. */
  datatype StepResult<T> = Ok(next: ArgState<T>) | Err(error: ParseError)

  /**
   * The static description of an argument. An empty `names` stands for the
   * empty template name "", which selects the positional base (no names at
   * all); otherwise `names[0]` is the primary name and the rest are aliases.
   * `convert` is the user-supplied converter and `initial` the value-initialised
   * `T` a single-value option holds before it is given a value.
   */
  datatype Descriptor<T> = Descriptor(names: seq<string>, nargs: NArgs, convert: string -> T, initial: T)

  /** Which of the four specialisations a descriptor selects. */
  datatype Kind = Boolean | SingleValue | MultiValue | Positional

  function KindOf<T>(d: Descriptor<T>): Kind
  {
    match d.nargs
    case None => Boolean
    case One => SingleValue
    case Many => if d.names == [] then Positional else MultiValue
  }

  /** A token is dispatched as a flag when it starts with '-'. */
  predicate IsFlag(token: string)
  {
    |token| > 0 && token[0] == '-'
  }

  /**
   * What the compile-time checks demand of a descriptor: a named argument's
   * primary name starts with '-'. (That a None argument has no value type and
   * the others have one is built into Value.)
   */
  predicate WellFormed<T>(d: Descriptor<T>)
  {
    d.names == [] || IsFlag(d.names[0])
  }

  /** The line an argument contributes to the help text. */
  function HelpView<T>(d: Descriptor<T>): (line: string)
    // a named argument is listed under one of its own names, and for a
    // well-formed descriptor the line looks like a flag exactly when the
    // argument has names
    ensures d.names != [] ==> line in d.names
    ensures WellFormed(d) ==> (IsFlag(line) <==> d.names != [])
  {
    if d.names == [] then "Positional Arguments..." else d.names[0]
  }

  /** The value's shape agrees with the arity. */
  predicate Shaped<T>(nargs: NArgs, v: Value<T>)
  {
    match nargs
    case None => v.Flag?
    case One => v.Single?
    case Many => v.Multi?
  }

  /** Phases only move forward: Start, then Seeking, then End. */
  function Rank(p: ParseState): nat
  {
    match p
    case Start => 0
    case Seeking => 1
    case End => 2
  }

  /** The state of a freshly constructed argument. */
  function Initial<T>(d: Descriptor<T>): (s: ArgState<T>)
    ensures s.phase == Start && Shaped(d.nargs, s.value)
    ensures s.value == Flag(false) || s.value == Single(d.initial) || s.value == Multi([])
  {
    ArgState(Start, match d.nargs
                    case None => Flag(false)
                    case One => Single(d.initial)
                    case Many => Multi([]))
  }

  /** The effect of TryParseFlag(token) on an argument in state `s`. */
  function FlagStep<T>(d: Descriptor<T>, s: ArgState<T>, token: string): (r: StepResult<T>)
    requires Shaped(d.nargs, s.value)
    ensures r.Ok? ==> Shaped(d.nargs, r.next.value) && Rank(s.phase) <= Rank(r.next.phase)
    // a flag token sets a boolean's value and changes no other value
    ensures r.Ok? && r.next.value != s.value ==> KindOf(d) == Boolean && r.next.value == Flag(true)
    // an error names the token that caused it; only a missing-values error
    // can be caused by a token that is not one of the argument's names
    ensures r.Err? ==> r.error.flag == token
    ensures r.Err? && token !in d.names ==> r.error == NoValues(token) && s.phase == Seeking
  {
    var isThis := token in d.names;
    match KindOf(d)
    case Boolean =>
      if !isThis then Ok(s)
      else if s.phase == Start then Ok(ArgState(End, Flag(true)))
      else Err(DuplicateOption(token))
    case SingleValue =>
      if !isThis then Ok(s)
      else if s.phase == Start then Ok(s.(phase := Seeking))
      else Err(RepeatedFlag(token))
    case MultiValue =>
      (match s.phase
       case Start => if isThis then Ok(s.(phase := Seeking)) else Ok(s)
       case Seeking =>
         if isThis then Err(DuplicateOption(token))
         else if |s.value.items| == 0 then Err(NoValues(token))
         else Ok(s.(phase := End))
       case End => if isThis then Err(DuplicateOption(token)) else Ok(s))
    case Positional => Ok(s.(phase := End))
  }

  /** The effect of TryParseValue(token) on an argument in state `s`; it never throws. */
  function ValueStep<T>(d: Descriptor<T>, s: ArgState<T>, token: string): (r: ArgState<T>)
    requires Shaped(d.nargs, s.value)
    ensures Shaped(d.nargs, r.value) && Rank(s.phase) <= Rank(r.phase)
    // a value token is taken only by an argument that is seeking one
    // (a positional argument seeks from the start) and is converted on the way
    ensures r != s ==> s.phase == Seeking || (s.phase == Start && KindOf(d) == Positional)
    ensures r != s && r.value.Single? ==> r.value.item == d.convert(token) && r.phase == End
    ensures r != s && r.value.Multi? ==> r.value.items == s.value.items + [d.convert(token)]
  {
    match KindOf(d)
    case Boolean => s
    case SingleValue =>
      if s.phase == Seeking then ArgState(End, Single(d.convert(token))) else s
    case MultiValue =>
      if s.phase == Seeking then s.(value := Multi(s.value.items + [d.convert(token)])) else s
    case Positional =>
      if s.phase == End then s else ArgState(Seeking, Multi(s.value.items + [d.convert(token)]))
  }

  /** One token as the parser hands it to an argument. */
  function Step<T>(d: Descriptor<T>, s: ArgState<T>, token: string): (r: StepResult<T>)
    requires Shaped(d.nargs, s.value)
    ensures r.Ok? ==> Shaped(d.nargs, r.next.value) && Rank(s.phase) <= Rank(r.next.phase)
    ensures r.Err? ==> IsFlag(token)
  {
    if IsFlag(token) then FlagStep(d, s, token) else Ok(ValueStep(d, s, token))
  }

  /** An argument shown a whole sequence of tokens, stopping at the first error. */
  function Feed<T>(d: Descriptor<T>, s: ArgState<T>, tokens: seq<string>): (r: StepResult<T>)
    requires Shaped(d.nargs, s.value)
    ensures r.Ok? ==> Shaped(d.nargs, r.next.value) && Rank(s.phase) <= Rank(r.next.phase)
    ensures r.Err? ==> exists k :: 0 <= k < |tokens| && IsFlag(tokens[k]) && r.error.flag == tokens[k]
    decreases |tokens|
  {
    if tokens == [] then Ok(s)
    else
      match Step(d, s, tokens[0])
      case Err(e) => Err(e)
      case Ok(next) =>
        var r := Feed(d, next, tokens[1..]);
        assert r.Err? ==> exists k :: 1 <= k < |tokens| && IsFlag(tokens[k]) && r.error.flag == tokens[k] by {
          if r.Err? {
            var k :| 0 <= k < |tokens[1..]| && IsFlag(tokens[1..][k]) && r.error.flag == tokens[1..][k];
            assert tokens[k + 1] == tokens[1..][k];
          }
        }
        r
  }

  /** One declared argument, updated in place as tokens arrive. */
  class Argument<T> {
    const desc: Descriptor<T>
    var state: ParseState
    var value: Value<T>

    ghost predicate Valid()
      reads this
    {
      Shaped(desc.nargs, value)
    }

    function State(): ArgState<T>
      reads this
    {
      ArgState(state, value)
    }

    constructor (d: Descriptor<T>)
      requires WellFormed(d)
      ensures Valid() && desc == d
      ensures State() == Initial(d)
    {
      desc := d;
      state := Start;
      value := Initial(d).value;
    }

    /** Handles a token that starts with '-'; a throw leaves the argument as it was. */
    method TryParseFlag(arg: string) returns (r: Outcome)
      requires Valid()
      modifies this
      ensures Valid()
      ensures r.Pass? ==> FlagStep(desc, old(State()), arg) == Ok(State())
      ensures r.Fail? ==> FlagStep(desc, old(State()), arg) == Err(r.error) && State() == old(State())
    {
      r := Pass;
      var isThis := arg in desc.names;
      match KindOf(desc)
      case Boolean =>
        if isThis {
          if state == Start {
            value := Flag(true);
            state := End;
          } else {
            r := Fail(DuplicateOption(arg));
          }
        }
      case SingleValue =>
        if state == Start {
          if isThis {
            state := Seeking;
          }
        } else if isThis {
          r := Fail(RepeatedFlag(arg));
        }
      case MultiValue =>
        match state {
          case Start =>
            if isThis {
              state := Seeking;
            }
          case Seeking =>
            if isThis {
              r := Fail(DuplicateOption(arg));
            } else if |value.items| == 0 {
              r := Fail(NoValues(arg));
            } else {
              state := End;
            }
          case End =>
            if isThis {
              r := Fail(DuplicateOption(arg));
            }
        }
      case Positional =>
        state := End;
    }

    /** Handles a token that does not start with '-'. */
    method TryParseValue(arg: string)
      requires Valid()
      modifies this
      ensures Valid()
      ensures State() == ValueStep(desc, old(State()), arg)
    {
      match KindOf(desc)
      case Boolean =>
      case SingleValue =>
        if state == Seeking {
          value := Single(desc.convert(arg));
          state := End;
        }
      case MultiValue =>
        if state == Seeking {
          value := Multi(value.items + [desc.convert(arg)]);
        }
      case Positional =>
        if state == Start {
          state := Seeking;
        }
        if state == Seeking {
          value := Multi(value.items + [desc.convert(arg)]);
        }
    }
  }
}
