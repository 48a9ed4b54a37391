/**
 * The parsed fixture: a closed sum of step kinds with total accessors, and
 * the `filterIsInstance` / `filter` selections the experiment runner makes
 * over a step list.
 */
module TestCase {
  import opened Wrappers
  import opened Text

  /** One turn of a fixture. Checkpoints and verifications carry the label
      of the failure mode they probe. */
  datatype TestStep =
    | Message(id: String, content: String)
    | Checkpoint(id: String, failureMode: String, content: String)
    | Verification(id: String, failureMode: String, content: String)
  {
    /** The `id` accessor: the id field of whichever variant this is. */
    function Id(): (r: String)
      ensures r == this.id
    {
      match this
      case Message(i, _) => i
      case Checkpoint(i, _, _) => i
      case Verification(i, _, _) => i
    }

    /** The `content` accessor: the content field of whichever variant. */
    function Content(): (r: String)
      ensures r == this.content
    {
      match this
      case Message(_, c) => c
      case Checkpoint(_, _, c) => c
      case Verification(_, _, c) => c
    }

    /** The `failureMode` accessor: null exactly for a message, the stored
        label otherwise. */
    function FailureMode(): (r: Option<String>)
      ensures r == None <==> this.Message?
      ensures !this.Message? ==> r == Some(this.failureMode)
    {
      match this
      case Message(_, _) => None
      case Checkpoint(_, f, _) => Some(f)
      case Verification(_, f, _) => Some(f)
    }

    /** The `type` accessor: the wire name of the variant, `message`,
        `checkpoint` or `verification`, each naming exactly one variant. */
    function Type(): (r: String)
      ensures this.Message? <==> r == "message"
      ensures this.Checkpoint? <==> r == "checkpoint"
      ensures this.Verification? <==> r == "verification"
    {
      match this
      case Message(_, _) => "message"
      case Checkpoint(_, _, _) => "checkpoint"
      case Verification(_, _, _) => "verification"
    }
  }

  /** Two steps have the same type string exactly when they are the same
      variant: the three names are distinct. */
  lemma TypeIdentifiesVariant(a: TestStep, b: TestStep)
    ensures a.Type() == b.Type() <==>
      (a.Message? && b.Message?) || (a.Checkpoint? && b.Checkpoint?)
      || (a.Verification? && b.Verification?)
  {
    assert "message" != "checkpoint" && "message" != "verification"
      && "checkpoint" != "verification" by {
      assert "message"[0] != "checkpoint"[0] && "message"[0] != "verification"[0];
      assert "checkpoint"[0] != "verification"[0];
    }
  }

  /** A parsed fixture. */
  datatype TestCase = TestCase(name: String, systemPrompt: String, steps: seq<TestStep>)

  // ---------------------------------------------------------------------------
  // Step selections

  /** `filterIsInstance<TestStep.Message>()`. */
  function Messages(steps: seq<TestStep>): (r: seq<TestStep>)
    ensures |r| <= |steps|
    ensures forall i :: 0 <= i < |r| ==> r[i].Message? && r[i] in steps
    ensures forall s :: s in steps && s.Message? ==> s in r
    ensures |steps| == 1 ==> r == if steps[0].Message? then steps else []
  {
    if steps == [] then []
    else (if steps[0].Message? then [steps[0]] else []) + Messages(steps[1..])
  }

  /** `filterIsInstance<TestStep.Verification>()`. */
  function Verifications(steps: seq<TestStep>): (r: seq<TestStep>)
    ensures |r| <= |steps|
    ensures forall i :: 0 <= i < |r| ==> r[i].Verification? && r[i] in steps
    ensures forall s :: s in steps && s.Verification? ==> s in r
    ensures |steps| == 1 ==> r == if steps[0].Verification? then steps else []
  {
    if steps == [] then []
    else (if steps[0].Verification? then [steps[0]] else []) + Verifications(steps[1..])
  }

  /** `filter { it !is TestStep.Verification }`. */
  function NonVerifications(steps: seq<TestStep>): (r: seq<TestStep>)
    ensures |r| <= |steps|
    ensures forall i :: 0 <= i < |r| ==> !r[i].Verification? && r[i] in steps
    ensures forall s :: s in steps && !s.Verification? ==> s in r
    ensures |steps| == 1 ==> r == if steps[0].Verification? then [] else steps
  {
    if steps == [] then []
    else (if steps[0].Verification? then [] else [steps[0]]) + NonVerifications(steps[1..])
  }

  // Each selection distributes over concatenation. With the one-step cases
  // in their contracts this pins the result down: the selected steps, in
  // their original order, each as often as it occurs.

  lemma {:induction false} MessagesConcat(a: seq<TestStep>, b: seq<TestStep>)
    ensures Messages(a + b) == Messages(a) + Messages(b)
  {
    if a == [] {
      assert a + b == b;
    } else {
      assert (a + b)[1..] == a[1..] + b;
      MessagesConcat(a[1..], b);
    }
  }

  lemma {:induction false} VerificationsConcat(a: seq<TestStep>, b: seq<TestStep>)
    ensures Verifications(a + b) == Verifications(a) + Verifications(b)
  {
    if a == [] {
      assert a + b == b;
    } else {
      assert (a + b)[1..] == a[1..] + b;
      VerificationsConcat(a[1..], b);
    }
  }

  lemma {:induction false} NonVerificationsConcat(a: seq<TestStep>, b: seq<TestStep>)
    ensures NonVerifications(a + b) == NonVerifications(a) + NonVerifications(b)
  {
    if a == [] {
      assert a + b == b;
    } else {
      assert (a + b)[1..] == a[1..] + b;
      NonVerificationsConcat(a[1..], b);
    }
  }

  /** The three selections split a step list: every step is kept by
      exactly one of `Verifications` and `NonVerifications`, and every
      message is kept by `NonVerifications`. */
  lemma {:induction false} SelectionsPartition(steps: seq<TestStep>)
    ensures |Verifications(steps)| + |NonVerifications(steps)| == |steps|
    ensures Messages(NonVerifications(steps)) == Messages(steps)
  {
    if steps != [] {
      SelectionsPartition(steps[1..]);
      var h := if steps[0].Verification? then [] else [steps[0]];
      MessagesConcat(h, NonVerifications(steps[1..]));
    }
  }
}
