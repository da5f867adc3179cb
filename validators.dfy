/** Prompt validators: single-answer checks, their short-circuit sequential
    composition, and the source-AMP uniqueness check that consults a module
    registry. */
module PromptValidators {
  import opened ModuleRecords
  import opened AlfrescoModuleRegistry

  /** A prompt answer as a validator receives it. */
  datatype Input = Undefined | Null | Text(value: string)

  /** What a validator returns: `true`, plain `false`, a rejection message,
      or `undefined` (no decision). */
  datatype Verdict = Accepted | Rejected | RejectedMsg(message: string) | NoDecision

  /** The fields of the object the caller binds as the validator's `this`. */
  type Context = map<string, string>

  /** What a validator sees of the registry argument: its records, in order.
      A call that passes no registry passes the empty list. */
  type RegistryView = seq<Module>

  /** A validator: the answer, the bound context and the registry argument in,
      a verdict out. */
  type Validator = (Input, Context, RegistryView) -> Verdict

  const EmptyMessage: string := "Artifact Id cannot be empty"
  const DuplicateMessage: string := "Duplicate artifact Id specified"
  const MismatchMessage: string := "that did not work"

  /** The composed validator's work: run the members in order with the same
      answer, context and registry, and return the first verdict that is not
      `true`; if all are `true`, the result is `true`. An empty list decides
      nothing. */
  function Chain(vs: seq<Validator>, input: Input, ctx: Context, reg: RegistryView): (r: Verdict)
    ensures vs == [] ==> r == NoDecision
    ensures vs != [] ==>
      (r == Accepted <==> forall i :: 0 <= i < |vs| ==> vs[i](input, ctx, reg) == Accepted)
    ensures vs != [] && r != Accepted ==>
      exists k :: 0 <= k < |vs| && r == vs[k](input, ctx, reg)
                  && forall j :: 0 <= j < k ==> vs[j](input, ctx, reg) == Accepted
  {
    if vs == [] then NoDecision
    else
      var first := vs[0](input, ctx, reg);
      if first != Accepted || |vs| == 1 then first
      else Chain(vs[1..], input, ctx, reg)
  }

  /** `sequentialValidatorFactory`: the validator that runs `vs` as a chain,
      forwarding whatever context and registry it is called with. */
  function SequentialValidatorFactory(vs: seq<Validator>): (v: Validator)
    ensures forall input, ctx, reg :: v(input, ctx, reg) == Chain(vs, input, ctx, reg)
  {
    (input, ctx, reg) => Chain(vs, input, ctx, reg)
  }

  /** A one-member chain behaves as its member, whatever the answer,
      `undefined` included. */
  lemma ChainSingleton(v: Validator, input: Input, ctx: Context, reg: RegistryView)
    ensures Chain([v], input, ctx, reg) == v(input, ctx, reg)
  {
  }

  /** A member that does not accept ends the chain: what follows it never
      surfaces. */
  lemma ChainShortCircuits(v: Validator, rest: seq<Validator>, input: Input, ctx: Context, reg: RegistryView)
    requires v(input, ctx, reg) != Accepted
    ensures Chain([v] + rest, input, ctx, reg) == v(input, ctx, reg)
  {
  }

  /** Chaining two non-empty chains: the second runs only when the first
      accepts. */
  lemma {:induction false} ChainAppend(a: seq<Validator>, b: seq<Validator>, input: Input, ctx: Context, reg: RegistryView)
    requires a != [] && b != []
    ensures Chain(a + b, input, ctx, reg)
         == if Chain(a, input, ctx, reg) == Accepted then Chain(b, input, ctx, reg) else Chain(a, input, ctx, reg)
  {
    assert (a + b)[0] == a[0];
    if |a| > 1 {
      assert (a + b)[1..] == a[1..] + b;
      ChainAppend(a[1..], b, input, ctx, reg);
    } else {
      assert (a + b)[1..] == b;
    }
  }

  /** The chain's verdict depends on its members only through what they return
      for the very answer, context and registry the chain was given. */
  lemma ChainForwards(vs: seq<Validator>, ws: seq<Validator>,
                       input: Input, ctx: Context, reg: RegistryView,
                       input': Input, ctx': Context, reg': RegistryView)
    requires |vs| == |ws|
    requires forall i :: 0 <= i < |vs| ==> vs[i](input, ctx, reg) == ws[i](input', ctx', reg')
    ensures Chain(vs, input, ctx, reg) == Chain(ws, input', ctx', reg')
  {
  }

  /** `_.isEmpty` of an answer: undefined, null and the empty string are empty. */
  predicate IsEmpty(input: Input)
  {
    !(input.Text? && input.value != "")
  }

  /** The test-local `isNotEmpty`: `true` for a non-empty answer, plain `false`
      otherwise. */
  function IsNotEmpty(input: Input, ctx: Context, reg: RegistryView): (r: Verdict)
    ensures r == Accepted <==> input.Text? && |input.value| > 0
    ensures r != Accepted ==> r == Rejected
  {
    if IsEmpty(input) then Rejected else Accepted
  }

  /** `this.name` of the bound context: undefined when the context has none. */
  function ContextName(ctx: Context): Input
  {
    if "name" in ctx then Text(ctx["name"]) else Undefined
  }

  /** The test-local `thisNameCheck`: accepts exactly the answer equal to the
      bound context's `name`, and otherwise rejects with a message. */
  function ThisNameCheck(input: Input, ctx: Context, reg: RegistryView): (r: Verdict)
    ensures r == Accepted <==> (if "name" in ctx then input == Text(ctx["name"]) else input == Undefined)
    ensures r != Accepted ==> r == RejectedMsg(MismatchMessage)
  {
    if ContextName(ctx) == input then Accepted else RejectedMsg(MismatchMessage)
  }

  /** The artifact id a source-AMP answer stands for. Only `boo` standing for
      `boo-repo-amp` is pinned down; this is the simplest rule that agrees. */
  function DerivedArtifactId(answer: string): string
  {
    answer + "-repo-amp"
  }

  /** Some registered record has artifact id `id`. */
  function Registered(reg: RegistryView, id: string): (r: bool)
    ensures r <==> exists i :: 0 <= i < |reg| && reg[i].artifactId == id
  {
    if reg == [] then false
    else reg[0].artifactId == id || Registered(reg[1..], id)
  }

  /** `uniqueSourceAmpModuleValidator`: an empty answer is rejected first; then
      an answer whose derived artifact id is already registered is rejected as
      a duplicate; any other answer is accepted. */
  function UniqueSourceAmpModuleValidator(input: Input, ctx: Context, reg: RegistryView): (r: Verdict)
    ensures IsEmpty(input) ==> r == RejectedMsg(EmptyMessage)
    ensures !IsEmpty(input) ==>
      (r == RejectedMsg(DuplicateMessage) <==>
         exists i :: 0 <= i < |reg| && reg[i].artifactId == DerivedArtifactId(input.value))
    ensures !IsEmpty(input) && r != RejectedMsg(DuplicateMessage) ==> r == Accepted
  {
    if IsEmpty(input) then RejectedMsg(EmptyMessage)
    else if Registered(reg, DerivedArtifactId(input.value)) then RejectedMsg(DuplicateMessage)
    else Accepted
  }

  /** The validators the tests compose: the uniqueness check over an empty
      registry rejects undefined and the empty answer with its message, and
      `isNotEmpty` accepts `one`. */
  lemma SingleMemberChains()
    ensures Chain([UniqueSourceAmpModuleValidator], Undefined, map[], []) == RejectedMsg(EmptyMessage)
    ensures Chain([UniqueSourceAmpModuleValidator], Text(""), map[], []) == RejectedMsg(EmptyMessage)
    ensures Chain([IsNotEmpty], Text("one"), map[], []) == Accepted
  {
  }

  /** Member order decides which rejection surfaces for the empty answer. */
  lemma OrderDecides()
    ensures Chain([IsNotEmpty, UniqueSourceAmpModuleValidator], Text(""), map[], []) == Rejected
    ensures Chain([UniqueSourceAmpModuleValidator, IsNotEmpty], Text(""), map[], []) == RejectedMsg(EmptyMessage)
  {
  }

  /** The context bound to the composed validator is the one its member sees. */
  lemma ContextReachesMembers()
    ensures SequentialValidatorFactory([ThisNameCheck])(Text("fred"), map["name" := "fred"], []) == Accepted
    ensures SequentialValidatorFactory([ThisNameCheck])(Text("george"), map["name" := "fred"], [])
         == RejectedMsg(MismatchMessage)
  {
    assert "george" != "fred" by { assert "george"[0] != "fred"[0]; }
  }

  /** The uniqueness check on its own: empty answers, a fresh answer over an
      empty registry, and an answer whose artifact is already registered. */
  lemma UniqueSourceAmpCases(m: Module)
    requires m.artifactId == "boo-repo-amp"
    ensures UniqueSourceAmpModuleValidator(Undefined, map[], []) == RejectedMsg(EmptyMessage)
    ensures UniqueSourceAmpModuleValidator(Null, map[], []) == RejectedMsg(EmptyMessage)
    ensures UniqueSourceAmpModuleValidator(Text("one"), map[], []) == Accepted
    ensures UniqueSourceAmpModuleValidator(Text("boo"), map[], [m]) == RejectedMsg(DuplicateMessage)
  {
    assert DerivedArtifactId("boo") == "boo-repo-amp";
  }

  /** The duplicate case end to end: a registry built over a store whose
      `moduleRegistry` entry holds a record with artifact id `boo-repo-amp`
      rejects the answer `boo`. */
  method DuplicateAgainstStoredRegistry(stored: Module) returns (v: Verdict)
    requires stored.artifactId == "boo-repo-amp"
    ensures v == RejectedMsg(DuplicateMessage)
  {
    var store := new ConfigStore(map[RegistryKey := [stored]], "org.alfresco", "1.0.0-SNAPSHOT");
    var reg := new ModuleRegistry(store);
    var view := reg.GetModules();
    assert IdOf(view[0]) == IdOf(stored);
    UniqueSourceAmpCases(view[0]);
    v := SequentialValidatorFactory([UniqueSourceAmpModuleValidator])(Text("boo"), map[], view);
  }
}
