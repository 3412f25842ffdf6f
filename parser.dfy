/**
 * The parser driver: one left-to-right pass over the command line (without
 * the program name). A version or help request ends the scan before any
 * argument sees it; every other token is shown to every declared argument
 * in declaration order, as a flag when it starts with '-' and as a value
 * otherwise. An argument that throws aborts the scan: the arguments before
 * it have already taken the token, those after it have not.
 */
module Parser {
  import opened Arguments

  /**
   * How ParseArgsOrExit ends: it returns, it prints the help text or the
   * version and exits with status 0, or an argument throws.
   */
  datatype ParseResult = Done | Help(lines: seq<string>) | Version | Failed(error: ParseError)

  predicate IsVersionRequest(token: string)
  {
    token == "-v" || token == "--version"
  }

  predicate IsHelpRequest(token: string)
  {
    token == "-h" || token == "--help"
  }

  /** A token the driver handles itself, before any argument sees it. */
  predicate IsMeta(token: string)
  {
    IsVersionRequest(token) || IsHelpRequest(token)
  }

  /** States that belong to the descriptors, one each, shaped by their arity. */
  predicate AllShaped<T>(ds: seq<Descriptor<T>>, ss: seq<ArgState<T>>)
  {
    |ds| == |ss| && forall i :: 0 <= i < |ds| ==> Shaped(ds[i].nargs, ss[i].value)
  }

  /** The states of freshly constructed arguments. */
  function InitialStates<T>(ds: seq<Descriptor<T>>): (ss: seq<ArgState<T>>)
    ensures AllShaped(ds, ss)
    ensures forall i :: 0 <= i < |ds| ==> ss[i].phase == Start
    ensures forall i :: 0 <= i < |ds| ==> ss[i] == Initial(ds[i])
  {
    seq(|ds|, i requires 0 <= i < |ds| => Initial(ds[i]))
  }

  /** The per-argument lines of the help text, in declaration order. */
  function HelpLines<T>(ds: seq<Descriptor<T>>): (lines: seq<string>)
    ensures |lines| == |ds|
    ensures forall i :: 0 <= i < |ds| ==> lines[i] == HelpView(ds[i])
    decreases |ds|
  {
    if ds == [] then [] else [HelpView(ds[0])] + HelpLines(ds[1..])
  }

  /** The arguments' states after one token was shown to them, and whether one threw. */
  datatype Dispatch<T> = Dispatch(states: seq<ArgState<T>>, outcome: Outcome)

  /**
   * The token shown to the arguments from index `i` on, in declaration
   * order, stopping at the first that throws.
   */
  function BroadcastFrom<T>(ds: seq<Descriptor<T>>, ss: seq<ArgState<T>>, token: string, i: nat): (r: Dispatch<T>)
    requires AllShaped(ds, ss) && i <= |ds|
    ensures AllShaped(ds, r.states)
    ensures r.outcome.Fail? ==> IsFlag(token)
    decreases |ds| - i
  {
    if i == |ds| then Dispatch(ss, Pass)
    else
      match Step(ds[i], ss[i], token)
      case Err(e) => Dispatch(ss, Fail(e))
      case Ok(next) => BroadcastFrom(ds, ss[i := next], token, i + 1)
  }

  /** The arguments' states and the parse's end. */
  datatype Scan<T> = Scan(states: seq<ArgState<T>>, result: ParseResult)

  /** The whole scan of `tokens`, starting from the states `ss`. */
  function Run<T>(ds: seq<Descriptor<T>>, ss: seq<ArgState<T>>, tokens: seq<string>): (r: Scan<T>)
    requires AllShaped(ds, ss)
    ensures AllShaped(ds, r.states)
    ensures r.result == Done ==> forall k :: 0 <= k < |tokens| ==> !IsMeta(tokens[k])
    ensures r.result.Help? ==> r.result.lines == HelpLines(ds)
    ensures r.result.Failed? ==> exists k :: 0 <= k < |tokens| && IsFlag(tokens[k]) && !IsMeta(tokens[k])
    decreases |tokens|
  {
    if tokens == [] then Scan(ss, Done)
    else if IsVersionRequest(tokens[0]) then Scan(ss, Version)
    else if IsHelpRequest(tokens[0]) then Scan(ss, Help(HelpLines(ds)))
    else
      var b := BroadcastFrom(ds, ss, tokens[0], 0);
      match b.outcome
      case Fail(e) => Scan(b.states, Failed(e))
      case Pass =>
        var r := Run(ds, b.states, tokens[1..]);
        assert r.result.Failed? ==> exists k :: 1 <= k < |tokens| && IsFlag(tokens[k]) && !IsMeta(tokens[k]) by {
          if r.result.Failed? {
            var k :| 0 <= k < |tokens[1..]| && IsFlag(tokens[1..][k]) && !IsMeta(tokens[1..][k]);
            assert tokens[k + 1] == tokens[1..][k];
          }
        }
        assert r.result == Done ==> forall k :: 1 <= k < |tokens| ==> !IsMeta(tokens[k]) by {
          if r.result == Done {
            forall k | 1 <= k < |tokens| ensures !IsMeta(tokens[k]) {
              assert tokens[k] == tokens[1..][k - 1];
            }
          }
        }
        r
  }

  /** A parser over a command line and a list of declared arguments. */
  class ArgumentParser<T> {
    /** argv[1..argc): the command line without the program name. */
    const args: seq<string>
    /** One argument object per declared argument, in declaration order. */
    const values: seq<Argument<T>>

    ghost predicate Valid()
      reads this, values
      ensures Valid() ==> AllShaped(Descriptors(), States())
    {
      && (forall i, j :: 0 <= i < j < |values| ==> values[i] != values[j])
      && (forall i :: 0 <= i < |values| ==> values[i].Valid())
    }

    function Descriptors(): (ds: seq<Descriptor<T>>)
      reads this
      ensures |ds| == |values|
    {
      seq(|values|, i requires 0 <= i < |values| => values[i].desc)
    }

    function States(): (ss: seq<ArgState<T>>)
      reads this, values
      ensures |ss| == |values|
    {
      seq(|values|, i requires 0 <= i < |values| reads values => values[i].State())
    }

    constructor (argv: seq<string>, ds: seq<Descriptor<T>>)
      requires |argv| >= 1
      requires forall i :: 0 <= i < |ds| ==> WellFormed(ds[i])
      ensures Valid()
      ensures forall i :: 0 <= i < |values| ==> fresh(values[i])
      ensures args == argv[1..] && Descriptors() == ds
      ensures States() == InitialStates(ds)
    {
      var created: seq<Argument<T>> := [];
      var i := 0;
      while i < |ds|
        invariant 0 <= i <= |ds| && |created| == i
        invariant forall k :: 0 <= k < i ==> fresh(created[k])
        invariant forall k :: 0 <= k < i ==> created[k].desc == ds[k]
        invariant forall k :: 0 <= k < i ==> created[k].Valid() && created[k].State() == Initial(ds[k])
        invariant forall k, l :: 0 <= k < l < i ==> created[k] != created[l]
      {
        var a := new Argument(ds[i]);
        created := created + [a];
        i := i + 1;
      }
      args := argv[1..];
      values := created;
    }

    /** Shows a flag token to every argument in order; a throw stops the fold. */
    method BroadcastFlag(arg: string) returns (o: Outcome)
      requires Valid() && IsFlag(arg)
      modifies values
      ensures Valid()
      ensures Dispatch(States(), o) == BroadcastFrom(Descriptors(), old(States()), arg, 0)
    {
      var k := 0;
      while k < |values|
        invariant 0 <= k <= |values|
        invariant Valid()
        invariant BroadcastFrom(Descriptors(), old(States()), arg, 0) == BroadcastFrom(Descriptors(), States(), arg, k)
      {
        ghost var before := States();
        o := values[k].TryParseFlag(arg);
        if o.Fail? {
          assert States() == before;
          return;
        }
        assert States() == before[k := values[k].State()];
        k := k + 1;
      }
      o := Pass;
    }

    /** Shows a value token to every argument in order. */
    method BroadcastValue(arg: string)
      requires Valid() && !IsFlag(arg)
      modifies values
      ensures Valid()
      ensures Dispatch(States(), Pass) == BroadcastFrom(Descriptors(), old(States()), arg, 0)
    {
      var k := 0;
      while k < |values|
        invariant 0 <= k <= |values|
        invariant Valid()
        invariant BroadcastFrom(Descriptors(), old(States()), arg, 0) == BroadcastFrom(Descriptors(), States(), arg, k)
      {
        ghost var before := States();
        values[k].TryParseValue(arg);
        assert States() == before[k := values[k].State()];
        k := k + 1;
      }
    }

    /** The scan; help and version end it as results instead of printing and exiting. */
    method ParseArgsOrExit() returns (r: ParseResult)
      requires Valid()
      modifies values
      ensures Valid()
      ensures Scan(States(), r) == Run(Descriptors(), old(States()), args)
    {
      var i := 0;
      while i < |args|
        invariant 0 <= i <= |args|
        invariant Valid()
        invariant Run(Descriptors(), old(States()), args) == Run(Descriptors(), States(), args[i..])
      {
        var arg := args[i];
        assert args[i..][0] == arg && args[i..][1..] == args[i + 1..];
        if arg == "-v" || arg == "--version" {
          return Version;
        } else if arg == "-h" || arg == "--help" {
          return Help(HelpLines(Descriptors()));
        } else if IsFlag(arg) {
          var o := BroadcastFlag(arg);
          if o.Fail? {
            return Failed(o.error);
          }
        } else {
          BroadcastValue(arg);
        }
        i := i + 1;
      }
      return Done;
    }

    /** The stored value of the argument declared at `index`. */
    method Get(index: nat) returns (v: Value<T>)
      requires Valid() && index < |values|
      ensures v == States()[index].value
    {
      v := values[index].value;
    }
  }
}
