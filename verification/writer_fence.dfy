/**
 * The hand-over of persistence between overlapping plugin generations (`src/PersistenceWriterFence.ts`).
 *
 * The promises the fence chains are modelled as nodes: `then` runs its operation once its predecessor is fulfilled
 * and passes a rejection on without running it; `catch` is fulfilled once its predecessor settles either way.
 * `log` is history: the operations that started and ended, in order.
 */
module WriterFence {
  import opened Common

  type Token = nat

  datatype Op = Op(token: Token, id: int)

  datatype Link = Start | Then(on: nat, op: Op) | Catch(on: nat)

  datatype Status = Waiting | Running | Settled(ok: bool)

  datatype Node = Node(link: Link, status: Status)

  datatype Event = Started(op: Op) | Ended(op: Op, ok: bool)

  /** `tokens` counts the symbols made so far; `tail` is the promise the next operation is chained to. */
  datatype Fence = Fence(current: Option<Token>, tokens: nat, tail: nat, nodes: seq<Node>, log: seq<Event>)

  const FRESH: Fence := Fence(None, 0, 0, [Node(Start, Settled(true))], [])

  /** `React` is the microtask of a promise whose predecessor settled; `Finish` is the operation settling. */
  datatype Step = Claim | Write(token: Token, id: int) | React(i: nat) | Finish(i: nat, ok: bool)

  ghost predicate Enabled(f: Fence, step: Step) {
    match step
    case Claim => true
    case Write(token, _) => token < f.tokens
    case React(i) =>
      && i < |f.nodes| && f.nodes[i].status == Waiting && f.nodes[i].link != Start
      && f.nodes[i].link.on < |f.nodes| && f.nodes[f.nodes[i].link.on].status.Settled?
    case Finish(i, _) => i < |f.nodes| && f.nodes[i].status == Running && f.nodes[i].link.Then?
  }

  ghost function Next(f: Fence, step: Step): Fence
    requires Enabled(f, step)
  {
    match step
    case Claim => f.(current := Some(f.tokens), tokens := f.tokens + 1)
    case Write(token, id) =>
      if f.current != Some(token) then f
      else
        var run := |f.nodes|;
        f.(nodes := f.nodes + [Node(Then(f.tail, Op(token, id)), Waiting), Node(Catch(run), Waiting)],
           tail := run + 1)
    case React(i) =>
      (match f.nodes[i].link
       case Then(on, op) =>
         if f.nodes[on].status.ok then
           f.(nodes := f.nodes[i := Node(Then(on, op), Running)], log := f.log + [Started(op)])
         else f.(nodes := f.nodes[i := Node(Then(on, op), Settled(false))])
       case Catch(on) => f.(nodes := f.nodes[i := Node(Catch(on), Settled(true))]))
    case Finish(i, ok) =>
      f.(nodes := f.nodes[i := Node(f.nodes[i].link, Settled(ok))], log := f.log + [Ended(f.nodes[i].link.op, ok)])
  }

  ghost predicate IsRun(f: Fence, steps: seq<Step>, end: Fence)
    decreases |steps|
  {
    if steps == [] then end == f else Enabled(f, steps[0]) && IsRun(Next(f, steps[0]), steps[1..], end)
  }

  // ---- what every step keeps ----------------------------------------------------------------------------------

  /** The operations admitted, in the order they were. */
  ghost function Admitted(nodes: seq<Node>): seq<Op> {
    if nodes == [] then []
    else
      var last := nodes[|nodes| - 1];
      Admitted(nodes[..|nodes| - 1]) + (if last.link.Then? then [last.link.op] else [])
  }

  /** What the statuses say happened. */
  ghost function Happened(nodes: seq<Node>): seq<Event> {
    if nodes == [] then [] else Happened(nodes[..|nodes| - 1]) + Events(nodes[|nodes| - 1])
  }

  ghost function Events(n: Node): seq<Event> {
    if !n.link.Then? then []
    else match n.status
      case Waiting => []
      case Running => [Started(n.link.op)]
      case Settled(ok) => [Started(n.link.op), Ended(n.link.op, ok)]
  }

  /** Node `i` of the chain: the start, then an operation and its `catch`, each on the node before. */
  ghost predicate Linked(i: nat, n: Node) {
    if i == 0 then n == Node(Start, Settled(true))
    else if i % 2 == 1 then n.link.Then? && n.link.on == i - 1
    else n.link == Catch(i - 1) && (n.status == Waiting || n.status == Settled(true))
  }

  ghost predicate Inv(f: Fence) {
    && |f.nodes| % 2 == 1 && f.tail == |f.nodes| - 1
    && (forall i | 0 <= i < |f.nodes| :: Linked(i, f.nodes[i]))
    && (forall i | 0 < i < |f.nodes| && f.nodes[i].status != Waiting :: f.nodes[i - 1].status.Settled?)
    && (f.current.Some? ==> f.current.value < f.tokens)
    && f.log == Happened(f.nodes)
  }

  /** Everything before a promise that is not waiting has settled. */
  lemma {:induction false} SettledBelow(f: Fence, i: nat, j: nat)
    requires Inv(f) && j < i < |f.nodes| && f.nodes[i].status != Waiting
    ensures f.nodes[j].status.Settled?
    decreases i
  {
    hide Happened, Linked;
    if j < i - 1 {
      SettledBelow(f, i - 1, j);
    }
  }

  lemma {:induction false} HappenedWaiting(nodes: seq<Node>, i: nat)
    requires i <= |nodes| && forall j | i <= j < |nodes| :: nodes[j].status == Waiting
    ensures Happened(nodes) == Happened(nodes[..i])
    decreases |nodes|
  {
    if i < |nodes| {
      HappenedWaiting(nodes[..|nodes| - 1], i);
      assert nodes[..|nodes| - 1][..i] == nodes[..i];
    } else {
      assert nodes[..i] == nodes;
    }
  }

  /** Changing the last promise that is not waiting changes only what it adds to the log. */
  lemma HappenedAt(nodes: seq<Node>, i: nat, n: Node)
    requires i < |nodes| && forall j | i < j < |nodes| :: nodes[j].status == Waiting
    ensures Happened(nodes[i := n]) == Happened(nodes[..i]) + Events(n)
  {
    hide Events;
    var after := nodes[i := n];
    HappenedWaiting(after, i + 1);
    assert after[..i + 1][..i] == nodes[..i] && after[..i + 1][i] == n;
  }

  lemma StepKeepsInv(f: Fence, step: Step)
    requires Inv(f) && Enabled(f, step)
    ensures Inv(Next(f, step))
  {
    match step {
      case Claim =>
      case Write(token, id) => WriteKeepsInv(f, token, id);
      case React(i) => ReactKeepsInv(f, i);
      case Finish(i, ok) => FinishKeepsInv(f, i, ok);
    }
  }

  lemma WriteKeepsInv(f: Fence, token: Token, id: int)
    requires Inv(f) && token < f.tokens
    ensures Inv(Next(f, Write(token, id)))
  {
    hide Happened;
    var after := Next(f, Write(token, id));
    if after != f {
      HappenedWaiting(after.nodes, |f.nodes|);
      assert after.nodes[..|f.nodes|] == f.nodes;
    }
  }

  /** Only the first promise that has not settled can move, and an operation only after a fulfilled one. */
  lemma Frontier(f: Fence, i: nat, step: Step)
    requires Inv(f) && Enabled(f, step) && (step == React(i) || (step.Finish? && step.i == i))
    ensures 0 < i < |f.nodes| && f.nodes[i - 1].status.Settled? && f.nodes[i].link.on == i - 1
    ensures i % 2 == 1 ==> f.nodes[i - 1].status.ok
    ensures forall j | i < j < |f.nodes| :: f.nodes[j].status == Waiting
  {
    hide Happened;
    assert Linked(i, f.nodes[i]);
    assert i > 0 ==> Linked(i - 1, f.nodes[i - 1]);
    forall j | i < j < |f.nodes| ensures f.nodes[j].status == Waiting {
      if f.nodes[j].status != Waiting {
        SettledBelow(f, j, i);
      }
    }
  }

  lemma ReactKeepsInv(f: Fence, i: nat)
    requires Inv(f) && Enabled(f, React(i))
    ensures Inv(Next(f, React(i)))
  {
    hide Happened;
    Frontier(f, i, React(i));
    assert Linked(i, f.nodes[i]);
    var after := Next(f, React(i));
    var n := after.nodes[i];
    MovedKeepsInv(f, i, n, if n.link.Then? then [Started(n.link.op)] else [], after);
  }

  lemma FinishKeepsInv(f: Fence, i: nat, ok: bool)
    requires Inv(f) && Enabled(f, Finish(i, ok))
    ensures Inv(Next(f, Finish(i, ok)))
  {
    hide Happened;
    Frontier(f, i, Finish(i, ok));
    assert Linked(i, f.nodes[i]);
    MovedKeepsInv(f, i, Node(f.nodes[i].link, Settled(ok)), [Ended(f.nodes[i].link.op, ok)], Next(f, Finish(i, ok)));
  }

  lemma MovedKeepsInv(f: Fence, i: nat, n: Node, es: seq<Event>, after: Fence)
    requires Inv(f) && 0 < i < |f.nodes| && f.nodes[i - 1].status.Settled?
    requires forall j | i < j < |f.nodes| :: f.nodes[j].status == Waiting
    requires Linked(i, n) && n.status != Waiting && f.nodes[i].link == n.link
    requires Events(n) == Events(f.nodes[i]) + es
    requires after == f.(nodes := f.nodes[i := n], log := f.log + es)
    ensures Inv(after)
  {
    hide Happened, Events;
    HappenedAt(f.nodes, i, n);
    HappenedAt(f.nodes, i, f.nodes[i]);
    assert f.nodes[i := f.nodes[i]] == f.nodes;
    Associate(Happened(f.nodes[..i]), Events(f.nodes[i]), es);
  }

  lemma {:induction false} RunKeepsInv(f: Fence, steps: seq<Step>, end: Fence)
    requires Inv(f) && IsRun(f, steps, end)
    ensures Inv(end)
    decreases |steps|
  {
    hide Inv, Next;
    if steps != [] {
      StepKeepsInv(f, steps[0]);
      RunKeepsInv(Next(f, steps[0]), steps[1..], end);
    }
  }

  // ---- one at a time, in admission order ----------------------------------------------------------------------

  /** Each operation starts after the one before it ended, whatever its outcome; only the last may be running. */
  ghost predicate OneAtATime(log: seq<Event>, ops: seq<Op>)
    decreases |log|
  {
    log == [] ||
    (&& ops != [] && log[0] == Started(ops[0])
     && (|log| == 1 || (log[1].Ended? && log[1].op == ops[0] && OneAtATime(log[2..], ops[1..]))))
  }

  lemma {:induction false} MoreAdmitted(log: seq<Event>, ops: seq<Op>, op: Op)
    requires OneAtATime(log, ops)
    ensures OneAtATime(log, ops + [op])
    decreases |log|
  {
    if |log| > 1 {
      assert (ops + [op])[1..] == ops[1..] + [op];
      MoreAdmitted(log[2..], ops[1..], op);
    }
  }

  lemma {:induction false} OneMore(log: seq<Event>, ops: seq<Op>, op: Op, n: Node)
    requires OneAtATime(log, ops) && |log| == 2 * |ops| && n.link.Then? && n.link.op == op
    ensures OneAtATime(log + Events(n), ops + [op])
    decreases |log|
  {
    if log == [] {
      assert log + Events(n) == Events(n) && ops + [op] == [op];
    } else {
      assert (ops + [op])[1..] == ops[1..] + [op];
      assert (log + Events(n))[2..] == log[2..] + Events(n);
      OneMore(log[2..], ops[1..], op, n);
    }
  }

  lemma {:induction false} PrefixIsSerial(f: Fence, n: nat)
    requires Inv(f) && n <= |f.nodes|
    ensures OneAtATime(Happened(f.nodes[..n]), Admitted(f.nodes[..n]))
    ensures n > 0 && f.nodes[n - 1].status.Settled? ==>
              |Happened(f.nodes[..n])| == 2 * |Admitted(f.nodes[..n])|
  {
    hide Inv;
    if n > 0 {
      var last := f.nodes[n - 1];
      assert f.nodes[..n][..n - 1] == f.nodes[..n - 1];
      PrefixIsSerial(f, n - 1);
      Predecessor(f, n - 1);
      if last.link.Then? {
        if last.status == Waiting {
          assert Happened(f.nodes[..n]) == Happened(f.nodes[..n - 1]);
          MoreAdmitted(Happened(f.nodes[..n - 1]), Admitted(f.nodes[..n - 1]), last.link.op);
        } else {
          OneMore(Happened(f.nodes[..n - 1]), Admitted(f.nodes[..n - 1]), last.link.op, last);
        }
      } else {
        assert Happened(f.nodes[..n]) == Happened(f.nodes[..n - 1]);
        assert Admitted(f.nodes[..n]) == Admitted(f.nodes[..n - 1]);
        if n == 1 {
          assert Happened(f.nodes[..1]) == [] && Admitted(f.nodes[..1]) == [];
        }
      }
    }
  }

  lemma Predecessor(f: Fence, i: nat)
    requires Inv(f) && i < |f.nodes|
    ensures i > 0 && f.nodes[i].status != Waiting ==> f.nodes[i - 1].status.Settled?
    ensures i == 0 ==> f.nodes[i].link == Start
  {
    assert Linked(i, f.nodes[i]);
  }

  /** In every run the admitted operations run one at a time, in the order they were admitted, even when some fail. */
  lemma AdmittedRunInOrder(steps: seq<Step>, end: Fence)
    requires IsRun(FRESH, steps, end)
    ensures OneAtATime(end.log, Admitted(end.nodes))
  {
    FreshInv();
    RunKeepsInv(FRESH, steps, end);
    PrefixIsSerial(end, |end.nodes|);
    assert end.nodes[..|end.nodes|] == end.nodes;
  }

  lemma FreshInv()
    ensures Inv(FRESH)
  {
    assert FRESH.nodes[..0] == [];
  }

  /**
   * Which operations are admitted: one written under the current token, at that moment, behind all admitted before; none
   * otherwise. A claim makes a token no one has yet the current one; nothing else changes it.
   */
  lemma AdmitsOnlyCurrent(f: Fence, step: Step)
    requires Inv(f) && Enabled(f, step)
    ensures
      var after := Next(f, step);
      && (step.Claim? ==> after.current == Some(f.tokens) && f.current != Some(f.tokens) && after.tokens == f.tokens + 1)
      && (!step.Claim? ==> after.current == f.current && after.tokens == f.tokens)
      && Admitted(after.nodes)
         == Admitted(f.nodes) + if step.Write? && f.current == Some(step.token) then [Op(step.token, step.id)] else []
  {
    hide Happened, Admitted;
    var after := Next(f, step);
    assert Admitted(f.nodes) + [] == Admitted(f.nodes);
    match step {
      case Claim =>
      case Write(token, id) =>
        if f.current == Some(token) {
          TwoMoreAdmitted(f.nodes, Node(Then(f.tail, Op(token, id)), Waiting), Node(Catch(|f.nodes|), Waiting));
        }
      case React(i) => SameAdmitted(f.nodes, i, after.nodes[i]);
      case Finish(i, ok) => SameAdmitted(f.nodes, i, after.nodes[i]);
    }
  }

  lemma TwoMoreAdmitted(nodes: seq<Node>, run: Node, caught: Node)
    requires run.link.Then? && caught.link.Catch?
    ensures Admitted(nodes + [run, caught]) == Admitted(nodes) + [run.link.op]
  {
    assert (nodes + [run, caught])[..|nodes| + 1] == nodes + [run];
    assert (nodes + [run])[..|nodes|] == nodes;
    assert Admitted(nodes + [run]) + [] == Admitted(nodes + [run]);
  }

  lemma {:induction false} SameAdmitted(nodes: seq<Node>, i: nat, n: Node)
    requires i < |nodes| && n.link == nodes[i].link
    ensures Admitted(nodes[i := n]) == Admitted(nodes)
    decreases |nodes|
  {
    var last := |nodes| - 1;
    if i < last {
      assert nodes[i := n][..last] == nodes[..last][i := n];
      SameAdmitted(nodes[..last], i, n);
    } else {
      assert nodes[i := n][..last] == nodes[..last];
    }
  }

  /** Once nothing is outstanding every admitted operation has started and ended. */
  lemma AllAdmittedRan(steps: seq<Step>, end: Fence)
    requires IsRun(FRESH, steps, end) && forall i | 0 <= i < |end.nodes| :: end.nodes[i].status.Settled?
    ensures OneAtATime(end.log, Admitted(end.nodes)) && |end.log| == 2 * |Admitted(end.nodes)|
  {
    FreshInv();
    RunKeepsInv(FRESH, steps, end);
    PrefixIsSerial(end, |end.nodes|);
    assert end.nodes[..|end.nodes|] == end.nodes;
  }

  /** And none is ever stuck behind a failed one: as long as something is outstanding, something can move. */
  lemma NeverStuck(f: Fence)
    requires Inv(f) && exists i | 0 <= i < |f.nodes| :: !f.nodes[i].status.Settled?
    ensures exists i: nat :: Enabled(f, React(i)) || Enabled(f, Finish(i, true))
  {
    hide Happened;
    var i :| 0 <= i < |f.nodes| && !f.nodes[i].status.Settled?;
    var j := FirstOpen(f, i);
    assert Linked(j, f.nodes[j]);
    if f.nodes[j].status == Waiting {
      assert Enabled(f, React(j));
    } else {
      assert Enabled(f, Finish(j, true));
    }
  }

  lemma {:induction false} FirstOpen(f: Fence, i: nat) returns (j: nat)
    requires Inv(f) && i < |f.nodes| && !f.nodes[i].status.Settled?
    ensures 0 < j <= i && !f.nodes[j].status.Settled? && f.nodes[j - 1].status.Settled?
  {
    hide Happened;
    assert Linked(0, f.nodes[0]);
    if f.nodes[i - 1].status.Settled? {
      j := i;
    } else {
      j := FirstOpen(f, i - 1);
    }
  }

  // ---- handing over -------------------------------------------------------------------------------------------

  /** Once `token` has claimed, what is chained past `since` belongs to it or a later one. */
  ghost predicate Claimed(f: Fence, token: Token, since: nat) {
    && f.current.Some? && f.current.value >= token && since < |f.nodes|
    && (forall i | since < i < |f.nodes| && f.nodes[i].link.Then? :: f.nodes[i].link.op.token >= token)
  }

  lemma StepKeepsClaimed(f: Fence, step: Step, token: Token, since: nat)
    requires Inv(f) && Enabled(f, step) && Claimed(f, token, since)
    ensures Claimed(Next(f, step), token, since)
    ensures since < |f.nodes| && f.nodes[since].status.Settled? ==> Next(f, step).nodes[since].status.Settled?
  {
    hide Happened, Linked;
  }

  lemma {:induction false} RunKeepsClaimed(f: Fence, steps: seq<Step>, end: Fence, token: Token, since: nat)
    requires Inv(f) && IsRun(f, steps, end) && Claimed(f, token, since)
    ensures Claimed(end, token, since)
    ensures f.nodes[since].status.Settled? ==> end.nodes[since].status.Settled?
    decreases |steps|
  {
    hide Inv, Next, Claimed;
    assert since < |f.nodes| by { ClaimedInRange(f, token, since); }
    if steps != [] {
      StepKeepsInv(f, steps[0]);
      StepKeepsClaimed(f, steps[0], token, since);
      RunKeepsClaimed(Next(f, steps[0]), steps[1..], end, token, since);
    }
  }

  lemma ClaimedInRange(f: Fence, token: Token, since: nat)
    requires Claimed(f, token, since)
    ensures since < |f.nodes|
  {
  }

  /** Every operation of an older token has ended: none is waiting, none is running. */
  ghost predicate OlderAreDone(f: Fence, token: Token) {
    forall i | 0 <= i < |f.nodes| && f.nodes[i].link.Then? && f.nodes[i].link.op.token < token ::
      f.nodes[i].status.Settled?
  }

  /**
   * Hand-over: a token claimed in some state of a run; `asked` is the state in which `drain` was called since, and `at`
   * a later state in which the promise it returned has settled. In every state from then on every operation of an
   * older token has ended, and none ever starts.
   */
  lemma HandOver(claimed: Fence, steps: seq<Step>, asked: Fence, more: seq<Step>, at: Fence, rest: seq<Step>,
                 end: Fence, step: Step)
    requires Inv(claimed) && IsRun(Next(claimed, Claim), steps, asked)
    requires IsRun(asked, more, at) && asked.tail < |at.nodes| && at.nodes[asked.tail].status.Settled?
    requires IsRun(at, rest, end) && Enabled(end, step)
    ensures OlderAreDone(end, claimed.tokens)
    ensures forall op | Next(end, step).log == end.log + [Started(op)] :: op.token >= claimed.tokens
  {
    hide Happened, Linked, Next;
    var token := claimed.tokens;
    var start := Next(claimed, Claim);
    StepKeepsInv(claimed, Claim);
    ClaimTakesHold(claimed);
    RunKeepsInv(start, steps, asked);
    RunKeepsClaimed(start, steps, asked, token, start.tail);
    TailGrows(asked, token, start.tail);
    RunKeepsInv(asked, more, at);
    RunKeepsClaimed(asked, more, at, token, asked.tail);
    RunKeepsInv(at, rest, end);
    RunKeepsClaimed(at, rest, end, token, asked.tail);
    SettledDrain(end, token, asked.tail);
    forall op | Next(end, step).log == end.log + [Started(op)] ensures op.token >= token {
      StartedIsLater(end, step, op, token, asked.tail);
    }
  }

  lemma ClaimTakesHold(f: Fence)
    requires Inv(f)
    ensures Claimed(Next(f, Claim), f.tokens, f.tail) && Next(f, Claim).tail == f.tail
  {
    hide Happened, Linked;
  }

  lemma TailGrows(f: Fence, token: Token, since: nat)
    requires Inv(f) && Claimed(f, token, since)
    ensures Claimed(f, token, f.tail)
  {
    hide Happened, Linked;
  }

  lemma NotSettledIsLater(f: Fence, i: nat, since: nat)
    requires Inv(f) && i < |f.nodes| && !f.nodes[i].status.Settled? && since < |f.nodes|
    requires f.nodes[since].status.Settled?
    ensures since < i
  {
    hide Happened, Linked;
    if i < since {
      SettledBelow(f, since, i);
    }
  }

  lemma SettledDrain(f: Fence, token: Token, since: nat)
    requires Inv(f) && Claimed(f, token, since) && f.nodes[since].status.Settled?
    ensures OlderAreDone(f, token)
  {
    hide Happened, Linked;
    forall i | 0 <= i < |f.nodes| && f.nodes[i].link.Then? && f.nodes[i].link.op.token < token
      ensures f.nodes[i].status.Settled? {
      if !f.nodes[i].status.Settled? {
        NotSettledIsLater(f, i, since);
      }
    }
  }

  lemma StartedIsLater(f: Fence, step: Step, op: Op, token: Token, since: nat)
    requires Inv(f) && Enabled(f, step) && Claimed(f, token, since) && f.nodes[since].status.Settled?
    requires Next(f, step).log == f.log + [Started(op)]
    ensures op.token >= token
  {
    hide Happened, Linked;
    var grown := f.log + [Started(op)];
    assert |grown| == |f.log| + 1 && grown[|f.log|] == Started(op);
    assert step.React?;
    NotSettledIsLater(f, step.i, since);
  }

  // ---- the object ---------------------------------------------------------------------------------------------

  /** The fence; `nodes` stands for the promises the runtime holds. */
  class PersistenceWriterFence {
    var current: Option<Token>
    var tokens: nat
    var tail: nat
    var nodes: seq<Node>
    ghost var log: seq<Event>

    ghost function Model(): Fence
      reads this
    {
      Fence(current, tokens, tail, nodes, log)
    }

    constructor ()
      ensures Model() == FRESH
    {
      current, tokens, tail, nodes, log := None, 0, 0, [Node(Start, Settled(true))], [];
    }

    method Claim() returns (token: Token)
      modifies this
      ensures Model() == Next(old(Model()), Step.Claim) && current == Some(token)
    {
      token := tokens;
      tokens := tokens + 1;
      current := Some(token);
    }

    /** The promise of everything admitted so far. */
    method Drain() returns (promise: nat)
      ensures promise == tail
    {
      promise := tail;
    }

    /** The promise of the operation's own outcome; `None` when it was not admitted. */
    method Write(token: Token, id: int) returns (run: Option<nat>)
      requires token < tokens
      modifies this
      ensures Model() == Next(old(Model()), Step.Write(token, id))
      ensures run.Some? <==> old(current) == Some(token)
      ensures run.Some? ==> run.value < |nodes| && nodes[run.value].link == Then(old(tail), Op(token, id))
    {
      if current != Some(token) {
        return None;
      }
      run := Some(|nodes|);
      nodes := nodes + [Node(Then(tail, Op(token, id)), Waiting), Node(Catch(|nodes|), Waiting)];
      tail := |nodes| - 1;
    }
  }
}
