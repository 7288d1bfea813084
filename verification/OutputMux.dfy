/** rgang's output: many nodes run at once, but their stdout must come out whole and in node order.
    One node a branch, no ditto and no pyret. */
module OutputMux {
  import opened Wrappers
  import opened ExitStatus

  type Bytes = string

  // What `select` delivers for a node: stdout data; a status line, after whose text stderr may turn
  // out to be closed; or the end of its process, with the stdout still to be drained.
  datatype Event =
    | Data(node: nat, text: Bytes)
    | StatusLine(node: nat, text: Bytes, code: Status, closed: bool, exitCode: Status)
    | Exit(node: nat, text: Bytes, line: Option<Status>, exitCode: Status)

  predicate Ends(e: Event) {
    e.Exit? || (e.StatusLine? && e.closed)
  }

  // A node's status after an event: the code of its status line, or 4 without one, and at the end
  // of the process its exit code as well.  Of a local process only the exit code counts.
  function NewStatus(was: Option<Status>, e: Event, local: bool): Option<Status> {
    match e
    case Data(_, _) => was
    case StatusLine(_, _, code, closed, exitCode) =>
      Some(if !closed then code else if local then exitCode else Or(code, exitCode))
    case Exit(_, _, line, exitCode) =>
      Some(if local then exitCode else if line.Some? then Or(line.value, exitCode) else Or(was.UnwrapOr(4), exitCode))
  }

  // ----- the reference: what a run should print

  // All stdout of a node, in order of arrival.
  ghost function Stdout(es: seq<Event>, node: nat): Bytes {
    if es == [] then ""
    else
      var e := es[|es| - 1];
      Stdout(es[..|es| - 1], node) + if e.node == node then e.text else ""
  }

  // The nodes before `k`, one after the other, each under its header.
  ghost function Printed(headers: seq<Bytes>, es: seq<Event>, k: nat): Bytes
    requires k <= |headers|
  {
    if k == 0 then "" else Printed(headers, es, k - 1) + headers[k - 1] + Stdout(es, k - 1)
  }

  ghost predicate Exited(es: seq<Event>, node: nat) {
    exists k :: 0 <= k < |es| && es[k].node == node && (es[k].Exit? || (es[k].StatusLine? && es[k].closed))
  }

  // The node has sent its status line, or is gone.
  ghost predicate Reported(es: seq<Event>, node: nat) {
    exists k :: 0 <= k < |es| && es[k].node == node && !es[k].Data?
  }

  // Nothing comes from a node that is gone, and no text after a status line.
  ghost predicate Legal(n: nat, es: seq<Event>) {
    forall k | 0 <= k < |es| ::
      && es[k].node < n
      && !Exited(es[..k], es[k].node)
      && (Reported(es[..k], es[k].node) ==> es[k].text == "")
  }

  // ----- one more event

  lemma StdoutStep(es: seq<Event>, e: Event, node: nat)
    ensures Stdout(es + [e], node) == Stdout(es, node) + if e.node == node then e.text else ""
  {
    assert (es + [e])[..|es|] == es;
  }

  lemma ReportedStep(es: seq<Event>, e: Event, node: nat)
    ensures Reported(es + [e], node) <==> Reported(es, node) || (e.node == node && !e.Data?)
    ensures Exited(es + [e], node) <==> Exited(es, node) || (e.node == node && Ends(e))
  {
    var es' := es + [e];
    assert forall k :: 0 <= k < |es| ==> es'[k] == es[k];
    assert es'[|es|] == e;
  }

  // Nodes already printed have nothing more to say, so what was printed stays as it is.
  lemma {:induction false} PrintedStep(headers: seq<Bytes>, es: seq<Event>, e: Event, k: nat)
    requires k <= |headers| && (e.node < k ==> e.text == "")
    ensures Printed(headers, es + [e], k) == Printed(headers, es, k)
  {
    if k > 0 {
      PrintedStep(headers, es, e, k - 1);
      StdoutStep(es, e, k - 1);
    }
  }

  lemma LegalStep(n: nat, es: seq<Event>, e: Event)
    requires Legal(n, es + [e])
    ensures Legal(n, es)
    ensures e.node < n && !Exited(es, e.node) && (Reported(es, e.node) ==> e.text == "")
  {
    var es' := es + [e];
    forall k | 0 <= k < |es|
      ensures es[k].node < n && !Exited(es[..k], es[k].node) && (Reported(es[..k], es[k].node) ==> es[k].text == "")
    {
      assert es'[..k] == es[..k] && es'[k] == es[k];
    }
    assert es'[..|es|] == es && es'[|es|] == e;
  }

  // What has been shown when `processing` is the node being shown.
  ghost function Shown(headers: seq<Bytes>, es: seq<Event>, processing: nat): Bytes
    requires processing <= |headers|
  {
    Printed(headers, es, processing)
    + if processing < |headers| then headers[processing] + Stdout(es, processing) else ""
  }

  // Nodes already shown have reported; what later nodes sent is stored; and the node being shown
  // has nothing stored.
  ghost predicate Stored(es: seq<Event>, stdout: seq<Bytes>, status: seq<Option<Status>>, processing: nat)
    requires |stdout| == |status| && processing <= |stdout|
  {
    && (forall i :: 0 <= i < |status| ==> (status[i].Some? <==> Reported(es, i)))
    && (forall i :: 0 <= i < processing ==> Reported(es, i))
    && (processing < |stdout| ==> stdout[processing] == "")
    && (forall i :: processing < i < |stdout| ==> stdout[i] == Stdout(es, i))
  }

  // Between two nodes: everything from `processing` on is still stored.
  ghost predicate Waiting(es: seq<Event>, stdout: seq<Bytes>, status: seq<Option<Status>>, processing: nat)
    requires |stdout| == |status| && processing <= |stdout|
  {
    && (forall i :: 0 <= i < |status| ==> (status[i].Some? <==> Reported(es, i)))
    && (forall i :: 0 <= i < processing ==> Reported(es, i))
    && (forall i :: processing <= i < |stdout| ==> stdout[i] == Stdout(es, i))
  }

  lemma ReportedIfExited(es: seq<Event>, node: nat)
    ensures Exited(es, node) ==> Reported(es, node)
  {
  }

  lemma ShownStep(headers: seq<Bytes>, es: seq<Event>, e: Event, processing: nat)
    requires processing <= |headers| && e.node < |headers| && (e.node < processing ==> e.text == "")
    ensures Shown(headers, es + [e], processing)
            == Shown(headers, es, processing) + if e.node == processing then e.text else ""
  {
    PrintedStep(headers, es, e, processing);
    StdoutStep(es, e, processing);
    if processing < |headers| {
      var more := if e.node == processing then e.text else "";
      Regroup(Printed(headers, es, processing), headers[processing], Stdout(es, processing), more);
    }
  }

  lemma Regroup(a: Bytes, b: Bytes, c: Bytes, d: Bytes)
    ensures a + (b + (c + d)) == a + (b + c) + d
  {
  }

  // What TakeIn does to the stored output and the status keeps them in step with the events.
  lemma StoredStep(es: seq<Event>, e: Event, stdout: seq<Bytes>, status: seq<Option<Status>>,
                   stdout': seq<Bytes>, status': seq<Option<Status>>, processing: nat)
    requires |stdout| == |status| == |status'| && processing <= |stdout| && e.node < |stdout|
    requires Stored(es, stdout, status, processing)
    requires stdout' == stdout[e.node := if e.node == processing then "" else stdout[e.node] + e.text]
    requires forall i :: 0 <= i < |status| && i != e.node ==> status'[i] == status[i]
    requires status'[e.node].Some? <==> status[e.node].Some? || !e.Data?
    ensures Stored(es + [e], stdout', status', processing)
  {
    forall i | 0 <= i < |stdout|
      ensures status'[i].Some? <==> Reported(es + [e], i)
      ensures i < processing ==> Reported(es + [e], i)
      ensures i > processing ==> stdout'[i] == Stdout(es + [e], i)
    {
      ReportedStep(es, e, i);
      StdoutStep(es, e, i);
    }
  }

  // The next node's header and stored output.
  lemma ShowNext(headers: seq<Bytes>, es: seq<Event>, stdout: seq<Bytes>, status: seq<Option<Status>>,
                 processing: nat, out: Bytes)
    requires |stdout| == |status| == |headers| && processing < |headers|
    requires Waiting(es, stdout, status, processing) && out == Printed(headers, es, processing)
    ensures var more := out + headers[processing] + stdout[processing];
            && more == Shown(headers, es, processing)
            && (status[processing].None? ==>
                Stored(es, stdout[processing := ""], status, processing) && !Exited(es, processing))
            && (status[processing].Some? ==>
                && Waiting(es, stdout[processing := ""], status, processing + 1)
                && more == Printed(headers, es, processing + 1))
  {
    ReportedIfExited(es, processing);
  }

  // ----- the multiplexer

  class Multiplexer {
    const headers: seq<Bytes>
    const localFirst: bool  // node 0 runs here, not behind rsh
    var stdout: seq<Bytes>
    var status: seq<Option<Status>>
    var processing: nat
    var out: Bytes
    ghost var seen: seq<Event>

    // Up to the question whether the node being shown is gone.
    ghost predicate Consistent()
      reads this
    {
      && |stdout| == |status| == |headers|
      && processing <= |headers|
      && Stored(seen, stdout, status, processing)
      && out == Shown(headers, seen, processing)
    }

    ghost predicate Valid()
      reads this
    {
      Consistent() && (processing < |headers| ==> !Exited(seen, processing))
    }

    constructor (headers: seq<Bytes>, localFirst: bool)
      requires headers != []
      ensures Valid() && seen == [] && this.headers == headers
    {
      this.headers, this.localFirst := headers, localFirst;
      stdout, status := seq(|headers|, i => ""), seq(|headers|, i => None);
      processing, out, seen := 0, headers[0], [];
    }

    method Handle(e: Event)
      requires Valid() && Legal(|headers|, seen + [e])
      modifies this
      ensures Valid() && seen == old(seen) + [e]
    {
      LegalStep(|headers|, seen, e);
      if processing < |headers| { ReportedStep(seen, e, processing); }
      See(e);
      if Ends(e) && e.node == processing { Advance(); }
    }

    method See(e: Event)
      requires Consistent() && e.node < |headers| && (Reported(seen, e.node) ==> e.text == "")
      modifies this`stdout, this`status, this`out, this`seen
      ensures Consistent() && seen == old(seen) + [e]
    {
      TakeIn(e);
      StoredStep(seen, e, old(stdout), old(status), stdout, status, processing);
      ShownStep(headers, seen, e, processing);
      seen := seen + [e];
    }

    // The node's output, its status line and, at its end, its exit code.
    method TakeIn(e: Event)
      requires |stdout| == |status| == |headers| && e.node < |headers|
      requires e.node == processing ==> stdout[processing] == ""
      modifies this`stdout, this`status, this`out
      ensures out == if e.node == processing then old(out) + e.text else old(out)
      ensures stdout == old(stdout)[e.node := if e.node == processing then "" else old(stdout[e.node]) + e.text]
      ensures |status| == old(|status|) && forall i :: 0 <= i < |status| && i != e.node ==> status[i] == old(status[i])
      ensures status[e.node] == NewStatus(old(status[e.node]), e, e.node == 0 && localFirst)
    {
      var node := e.node;
      if !e.Exit? {
        if node == processing {
          out := out + e.text;
        } else {
          stdout := stdout[node := stdout[node] + e.text];
        }
      }
      if e.StatusLine? { status := status[node := Some(e.code)]; }
      if Ends(e) {
        if e.Exit? {
          stdout := stdout[node := stdout[node] + e.text];
          if e.line.Some? { status := status[node := e.line]; }
        }
        if node == processing {
          out := out + stdout[node];
          stdout := stdout[node := ""];
        }
        var code := if status[node].Some? then status[node].value else 4;
        status := status[node := Some(if node == 0 && localFirst then e.exitCode else Or(code, e.exitCode))];
      }
    }

    // Everything before `processing` has been shown and nothing after it.
    ghost predicate BetweenNodes()
      reads this
    {
      && |stdout| == |status| == |headers| && processing <= |headers|
      && Waiting(seen, stdout, status, processing) && out == Printed(headers, seen, processing)
    }

    // The node being shown is gone: show the next ones, up to one that has not reported yet.
    method Advance()
      requires Consistent() && processing < |headers| && Exited(seen, processing)
      modifies this`processing, this`out, this`stdout
      ensures Valid()
    {
      ReportedIfExited(seen, processing);
      processing := processing + 1;
      while processing < |headers|
        invariant BetweenNodes()
      {
        var stop := ShowOne();
        if stop {
          return;
        }
      }
    }

    method ShowOne() returns (stop: bool)
      requires BetweenNodes() && processing < |headers|
      modifies this`processing, this`out, this`stdout
      ensures if stop then Valid() else BetweenNodes() && processing == old(processing) + 1
    {
      ShowNext(headers, seen, stdout, status, processing, out);
      stop := status[processing].None?;
      out := out + headers[processing] + stdout[processing];
      stdout := stdout[processing := ""];
      if stop {
        assert Stored(seen, stdout, status, processing) && out == Shown(headers, seen, processing);
      } else {
        processing := processing + 1;
        assert Waiting(seen, stdout, status, processing) && out == Printed(headers, seen, processing);
      }
    }
  }

  // ----- every interleaving

  // Whatever the order in which the nodes' events arrive: what has been written is a prefix of the
  // nodes' outputs one after the other, and once all nodes are gone it is all of it.
  method Run(headers: seq<Bytes>, localFirst: bool, es: seq<Event>) returns (out: Bytes)
    requires headers != [] && Legal(|headers|, es)
    ensures out <= Printed(headers, es, |headers|)
    ensures (forall i :: 0 <= i < |headers| ==> Exited(es, i)) ==> out == Printed(headers, es, |headers|)
  {
    var mux := new Multiplexer(headers, localFirst);
    for k := 0 to |es|
      invariant mux.Valid() && mux.headers == headers && mux.seen == es[..k]
    {
      assert es[..k + 1] == es[..k] + [es[k]];
      LegalPrefix(|headers|, es, k + 1);
      mux.Handle(es[k]);
    }
    assert es[..|es|] == es;
    out := mux.out;
    ShownIsPrefix(headers, es, mux.processing);
  }

  lemma ShownIsPrefix(headers: seq<Bytes>, es: seq<Event>, processing: nat)
    requires processing <= |headers|
    ensures Shown(headers, es, processing) <= Printed(headers, es, |headers|)
    ensures processing == |headers| ==> Shown(headers, es, processing) == Printed(headers, es, |headers|)
  {
    if processing < |headers| { PrintedGrows(headers, es, processing + 1, |headers|); }
  }

  lemma LegalPrefix(n: nat, es: seq<Event>, k: nat)
    requires Legal(n, es) && k <= |es|
    ensures Legal(n, es[..k])
  {
    var p := es[..k];
    forall j | 0 <= j < |p|
      ensures p[j].node < n && !Exited(p[..j], p[j].node) && (Reported(p[..j], p[j].node) ==> p[j].text == "")
    {
      assert p[..j] == es[..j] && p[j] == es[j];
    }
  }

  lemma {:induction false} PrintedGrows(headers: seq<Bytes>, es: seq<Event>, j: nat, k: nat)
    requires j <= k <= |headers|
    ensures Printed(headers, es, j) <= Printed(headers, es, k)
    decreases k - j
  {
    if j < k { PrintedGrows(headers, es, j, k - 1); }
  }
}
