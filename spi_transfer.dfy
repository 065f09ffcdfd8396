/*
 * Batch transfer of maxim_spi.c (max_spi_transfer, max_spi_write_and_read)
 * as functions: the reconfiguration on a chip-select change, the request
 * built for each message, and the message loop with its early exit.
 */
module SpiTransfer {
  import opened SpiDefs
  import opened SpiTiming
  import opened SpiConfig

  /**
   * The request issued for one message: both buffers as given, no length
   * for an absent buffer and the whole byte count for a present one,
   * counters cleared, deassertion as the message asks.
   */
  function RequestFor(dev: nat, cs: U32, m: Msg): (r: Req)
    ensures r.txData == m.tx && r.rxData == m.rx && r.ssDeassert == m.csChange
    ensures r.txLen == (if r.txData == Null then 0 else m.bytesNumber)
    ensures r.rxLen == (if r.rxData == Null then 0 else m.bytesNumber)
    ensures r.spi == dev && r.ssIdx == cs && r.txCnt == 0 && r.rxCnt == 0
  {
    Req(spi := dev, ssIdx := cs, txData := m.tx, rxData := m.rx,
        txLen := if m.tx != Null then m.bytesNumber else 0,
        rxLen := if m.rx != Null then m.bytesNumber else 0,
        txCnt := 0, rxCnt := 0, ssDeassert := m.csChange)
  }

  /** SDK codes that end a batch. */
  predicate Aborts(code: int)
  {
    code == EBadParam || code == EBadState
  }

  /** The errno a batch-ending SDK code is normalised to. */
  function ErrorOf(code: int): (e: int)
    requires Aborts(code)
    ensures code == EBadParam ==> e == -EInval
    ensures code == EBadState ==> e == -EBusy
  {
    if code == EBadParam then -EInval else -EBusy
  }

  /**
   * The index of the first of the first `n` replies that ends a batch, or
   * `n` when none does.
   */
  function FirstAbort(rs: seq<int>, n: nat): (k: nat)
    ensures k <= n
    ensures forall j :: 0 <= j < k ==> !Aborts(Reply(rs, j))
    ensures k < n ==> Aborts(Reply(rs, k))
    decreases n
  {
    if n == 0 then 0
    else if Aborts(Reply(rs, 0)) then 0
    else
      var k := FirstAbort(Drop(rs, 1), n - 1);
      assert forall j :: 1 <= j < 1 + k ==> Reply(rs, j) == Reply(Drop(rs, 1), j - 1);
      1 + k
  }

  /** How many transactions a batch of `n` messages issues. */
  function Issued(rs: seq<int>, n: nat): nat
  {
    var k := FirstAbort(rs, n);
    if k < n then k + 1 else n
  }

  /** The part of the world a transfer changes besides the chip-select cache. */
  datatype XState = XState(cache: Delays, reg: SsTime, replies: seq<int>, trace: seq<Event>)

  datatype RunOutcome = RunOutcome(ret: int, state: XState)

  /**
   * One message: program its delays, then issue its transaction, which
   * takes the next SDK reply.
   */
  function Step(dev: nat, cs: U32, clk: nat, m: Msg, s: XState): (r: XState)
    requires ValidClock(clk)
    ensures r.replies == Drop(s.replies, 1)
  {
    var d := DelayConfig(s.cache, s.reg, m, clk);
    XState(d.cache, d.reg, Drop(s.replies, 1),
           s.trace + d.events + [SdkTransaction(RequestFor(dev, cs, m))])
  }

  /**
   * The message loop: for each message in order, program the delays, issue
   * the transaction, stop on E_BAD_PARAM or E_BAD_STATE, else wait the
   * message's delay and go on.
   */
  function RunMessages(dev: nat, cs: U32, clk: nat, msgs: seq<Msg>, s: XState): RunOutcome
    requires ValidClock(clk)
    decreases |msgs|
  {
    if msgs == [] then RunOutcome(0, s)
    else
      var code := Reply(s.replies, 0);
      var s1 := Step(dev, cs, clk, msgs[0], s);
      if Aborts(code) then RunOutcome(ErrorOf(code), s1)
      else RunMessages(dev, cs, clk, msgs[1..], s1.(trace := s1.trace + [Udelay(msgs[0].csChangeDelay)]))
  }

  datatype TransferOutcome = TransferOutcome(ret: int, last: U32, state: XState)

  /**
   * max_spi_transfer on a descriptor and a message array: reconfigure when
   * the chip-select differs from the last one configured on the instance
   * (`last`), then run the messages.
   */
  function TransferSpec(v: SpiView, clk: nat, last: U32, msgs: seq<Msg>, s: XState): TransferOutcome
    requires ValidClock(clk)
  {
    if v.cs != last then
      var c := ConfigRun(v, s.replies);
      var s1 := s.(replies := c.rest, trace := s.trace + c.events);
      if c.ret != 0 then TransferOutcome(c.ret, last, s1)
      else
        var r := RunMessages(v.dev, v.cs, clk, msgs, s1);
        TransferOutcome(r.ret, v.cs, r.state)
    else
      var r := RunMessages(v.dev, v.cs, clk, msgs, s);
      TransferOutcome(r.ret, last, r.state)
  }

  /** The message max_spi_write_and_read sends: one in-place message, deasserting CS. */
  function SingleMessage(data: Buf, n: U16): Msg
  {
    Msg(tx := data, rx := data, bytesNumber := n, csChange := 1,
        csChangeDelay := 0, csDelayFirst := 0, csDelayLast := 0)
  }

  /*
   * Views of a trace.
   */

  /** The items `f` picks out of each event of `t`, in order. */
  function Collect<X>(t: seq<Event>, f: Event -> seq<X>): seq<X>
    decreases |t|
  {
    if t == [] then [] else Collect(t[..|t| - 1], f) + f(t[|t| - 1])
  }

  function TransactionOf(e: Event): seq<Req>
  {
    if e.SdkTransaction? then [e.req] else []
  }

  function UdelayOf(e: Event): seq<U32>
  {
    if e.Udelay? then [e.us] else []
  }

  function InitOf(e: Event): seq<Event>
  {
    if e.SdkInit? then [e] else []
  }

  /** The requests of all transactions in a trace. */
  function Transactions(t: seq<Event>): seq<Req>
  {
    Collect(t, TransactionOf)
  }

  /** The busy-wait durations in a trace. */
  function Udelays(t: seq<Event>): seq<U32>
  {
    Collect(t, UdelayOf)
  }

  /** How many times a trace initialises the peripheral. */
  function InitCalls(t: seq<Event>): nat
  {
    |Collect(t, InitOf)|
  }

  /** The requests for a sequence of messages. */
  function Requests(dev: nat, cs: U32, ms: seq<Msg>): (rq: seq<Req>)
    ensures |rq| == |ms|
  {
    seq(|ms|, j requires 0 <= j < |ms| => RequestFor(dev, cs, ms[j]))
  }

  /** The post-transfer delays of a sequence of messages. */
  function DelaysOf(ms: seq<Msg>): (ds: seq<U32>)
    ensures |ds| == |ms|
  {
    seq(|ms|, j requires 0 <= j < |ms| => ms[j].csChangeDelay)
  }

  lemma {:induction false} CollectAppend<X>(a: seq<Event>, b: seq<Event>, f: Event -> seq<X>)
    ensures Collect(a + b, f) == Collect(a, f) + Collect(b, f)
    decreases |b|
  {
    if b == [] {
      assert a + b == a;
    } else {
      var b' := b[..|b| - 1];
      assert (a + b)[..|a + b| - 1] == a + b';
      CollectAppend(a, b', f);
    }
  }

  /** Delay programming only ever logs warnings. */
  lemma DelayEventsAreWarnings(cache: Delays, reg: SsTime, m: Msg, clk: nat)
    requires ValidClock(clk)
    ensures var ev := DelayConfig(cache, reg, m, clk).events;
      Transactions(ev) == [] && Udelays(ev) == [] && InitCalls(ev) == 0
  {
    var ev := DelayConfig(cache, reg, m, clk).events;
    if ev != [] {
      assert ev == [] + [ev[0]];
      assert ev[..0] == [];
    }
  }

  /** Views of a one-event trace. */
  lemma CollectSingle<X>(e: Event, f: Event -> seq<X>)
    ensures Collect([e], f) == f(e)
  {
    assert [e][..0] == [];
  }

  /** What appending one event adds to each view of a trace. */
  lemma ViewsAppend(t: seq<Event>, e: Event)
    ensures Transactions(t + [e]) == Transactions(t) + TransactionOf(e)
    ensures Udelays(t + [e]) == Udelays(t) + UdelayOf(e)
    ensures InitCalls(t + [e]) == InitCalls(t) + |InitOf(e)|
  {
    assert (t + [e])[..|t + [e]| - 1] == t;
  }

  /** What one step adds to each view of the trace. */
  lemma StepViews(dev: nat, cs: U32, clk: nat, m: Msg, s: XState)
    requires ValidClock(clk)
    ensures var t := Step(dev, cs, clk, m, s).trace;
      && Transactions(t) == Transactions(s.trace) + [RequestFor(dev, cs, m)]
      && Udelays(t) == Udelays(s.trace)
      && InitCalls(t) == InitCalls(s.trace)
      && s.trace <= t
  {
    var d := DelayConfig(s.cache, s.reg, m, clk);
    DelayEventsAreWarnings(s.cache, s.reg, m, clk);
    CollectAppend(s.trace, d.events, TransactionOf);
    CollectAppend(s.trace, d.events, UdelayOf);
    CollectAppend(s.trace, d.events, InitOf);
    ViewsAppend(s.trace + d.events, SdkTransaction(RequestFor(dev, cs, m)));
  }

  /**
   * The loop returns 0 exactly when no reply among the first |msgs| ends
   * the batch, and otherwise the normalised code of the first that does.
   */
  lemma {:induction false} RunMessagesResult(dev: nat, cs: U32, clk: nat, msgs: seq<Msg>, s: XState)
    requires ValidClock(clk)
    ensures var k := FirstAbort(s.replies, |msgs|);
      RunMessages(dev, cs, clk, msgs, s).ret == (if k == |msgs| then 0 else ErrorOf(Reply(s.replies, k)))
    decreases |msgs|
  {
    if msgs != [] && Aborts(Reply(s.replies, 0)) {
      RunAbort(dev, cs, clk, msgs, s);
    } else if msgs != [] {
      var rs := s.replies;
      var c := Continue(dev, cs, clk, msgs[0], s);
      ContinueViews(dev, cs, clk, msgs[0], s);
      RunUnfold(dev, cs, clk, msgs, s);
      RunMessagesResult(dev, cs, clk, msgs[1..], c);
      FirstAbortShift(rs, |msgs|);
      ReplyDrop(rs, 1, FirstAbort(Drop(rs, 1), |msgs| - 1));
    }
  }

  /** The loop consumes one SDK reply per transaction issued. */
  lemma {:induction false} RunMessagesReplies(dev: nat, cs: U32, clk: nat, msgs: seq<Msg>, s: XState)
    requires ValidClock(clk)
    ensures RunMessages(dev, cs, clk, msgs, s).state.replies == Drop(s.replies, Issued(s.replies, |msgs|))
    decreases |msgs|
  {
    if msgs != [] && Aborts(Reply(s.replies, 0)) {
      RunAbort(dev, cs, clk, msgs, s);
    } else if msgs != [] {
      var rs := s.replies;
      var c := Continue(dev, cs, clk, msgs[0], s);
      ContinueViews(dev, cs, clk, msgs[0], s);
      RunUnfold(dev, cs, clk, msgs, s);
      RunMessagesReplies(dev, cs, clk, msgs[1..], c);
      FirstAbortShift(rs, |msgs|);
      DropDrop(rs, 1, Issued(Drop(rs, 1), |msgs| - 1));
    }
  }

  /** A first reply that does not end the batch shifts the abort index by one. */
  lemma FirstAbortShift(rs: seq<int>, n: nat)
    requires n > 0 && !Aborts(Reply(rs, 0))
    ensures FirstAbort(rs, n) == 1 + FirstAbort(Drop(rs, 1), n - 1)
    ensures Issued(rs, n) == 1 + Issued(Drop(rs, 1), n - 1)
  {
  }

  /** The state the loop continues from after a message that went through. */
  function Continue(dev: nat, cs: U32, clk: nat, m: Msg, s: XState): XState
    requires ValidClock(clk)
  {
    var s1 := Step(dev, cs, clk, m, s);
    s1.(trace := s1.trace + [Udelay(m.csChangeDelay)])
  }

  /** A first reply that ends the batch: one transaction, then the error. */
  lemma RunAbort(dev: nat, cs: U32, clk: nat, msgs: seq<Msg>, s: XState)
    requires ValidClock(clk) && msgs != [] && Aborts(Reply(s.replies, 0))
    ensures RunMessages(dev, cs, clk, msgs, s) ==
      RunOutcome(ErrorOf(Reply(s.replies, 0)), Step(dev, cs, clk, msgs[0], s))
    ensures FirstAbort(s.replies, |msgs|) == 0 && Issued(s.replies, |msgs|) == 1
  {
  }

  lemma RunUnfold(dev: nat, cs: U32, clk: nat, msgs: seq<Msg>, s: XState)
    requires ValidClock(clk) && msgs != [] && !Aborts(Reply(s.replies, 0))
    ensures RunMessages(dev, cs, clk, msgs, s) ==
      RunMessages(dev, cs, clk, msgs[1..], Continue(dev, cs, clk, msgs[0], s))
  {
  }

  lemma RequestsCons(dev: nat, cs: U32, ms: seq<Msg>, n: nat)
    requires n < |ms|
    ensures Requests(dev, cs, ms[..n + 1]) == [RequestFor(dev, cs, ms[0])] + Requests(dev, cs, ms[1..][..n])
  {
    assert ms[..n + 1] == [ms[0]] + ms[1..][..n];
  }

  lemma DelaysCons(ms: seq<Msg>, n: nat)
    requires n < |ms|
    ensures DelaysOf(ms[..n + 1]) == [ms[0].csChangeDelay] + DelaysOf(ms[1..][..n])
  {
    assert ms[..n + 1] == [ms[0]] + ms[1..][..n];
  }

  /** What a message that went through adds to each view, and the replies it takes. */
  lemma ContinueViews(dev: nat, cs: U32, clk: nat, m: Msg, s: XState)
    requires ValidClock(clk)
    ensures var c := Continue(dev, cs, clk, m, s);
      && c.replies == Drop(s.replies, 1)
      && Transactions(c.trace) == Transactions(s.trace) + [RequestFor(dev, cs, m)]
      && Udelays(c.trace) == Udelays(s.trace) + [m.csChangeDelay]
      && InitCalls(c.trace) == InitCalls(s.trace)
      && s.trace <= c.trace
  {
    StepViews(dev, cs, clk, m, s);
    ViewsAppend(Step(dev, cs, clk, m, s).trace, Udelay(m.csChangeDelay));
  }

  /**
   * The loop issues the requests of the messages in order, up to and
   * including the first whose transaction ends the batch; later messages
   * are never issued.
   */
  lemma {:induction false} RunMessagesTransactions(dev: nat, cs: U32, clk: nat, msgs: seq<Msg>, s: XState)
    requires ValidClock(clk)
    ensures Transactions(RunMessages(dev, cs, clk, msgs, s).state.trace) ==
      Transactions(s.trace) + Requests(dev, cs, msgs[..Issued(s.replies, |msgs|)])
    decreases |msgs|
  {
    if msgs != [] {
      if Aborts(Reply(s.replies, 0)) {
        TransactionsAbort(dev, cs, clk, msgs, s);
      } else {
        RunMessagesTransactions(dev, cs, clk, msgs[1..], Continue(dev, cs, clk, msgs[0], s));
        TransactionsContinue(dev, cs, clk, msgs, s);
      }
    }
  }

  lemma TransactionsAbort(dev: nat, cs: U32, clk: nat, msgs: seq<Msg>, s: XState)
    requires ValidClock(clk) && msgs != [] && Aborts(Reply(s.replies, 0))
    ensures Transactions(RunMessages(dev, cs, clk, msgs, s).state.trace) ==
      Transactions(s.trace) + Requests(dev, cs, msgs[..Issued(s.replies, |msgs|)])
  {
    RunAbort(dev, cs, clk, msgs, s);
    StepViews(dev, cs, clk, msgs[0], s);
    assert msgs[..1] == [msgs[0]];
  }

  lemma TransactionsContinue(dev: nat, cs: U32, clk: nat, msgs: seq<Msg>, s: XState)
    requires ValidClock(clk) && msgs != [] && !Aborts(Reply(s.replies, 0))
    requires var c := Continue(dev, cs, clk, msgs[0], s);
      Transactions(RunMessages(dev, cs, clk, msgs[1..], c).state.trace) ==
        Transactions(c.trace) + Requests(dev, cs, msgs[1..][..Issued(c.replies, |msgs| - 1)])
    ensures Transactions(RunMessages(dev, cs, clk, msgs, s).state.trace) ==
      Transactions(s.trace) + Requests(dev, cs, msgs[..Issued(s.replies, |msgs|)])
  {
    var m := msgs[0];
    var c := Continue(dev, cs, clk, m, s);
    ContinueViews(dev, cs, clk, m, s);
    RunUnfold(dev, cs, clk, msgs, s);
    FirstAbortShift(s.replies, |msgs|);
    var n' := Issued(c.replies, |msgs| - 1);
    RequestsCons(dev, cs, msgs, n');
    var t := Transactions(s.trace);
    var tail := Requests(dev, cs, msgs[1..][..n']);
    assert Issued(s.replies, |msgs|) == n' + 1;
    assert Transactions(RunMessages(dev, cs, clk, msgs, s).state.trace) == t + [RequestFor(dev, cs, m)] + tail;
    assert t + [RequestFor(dev, cs, m)] + tail == t + Requests(dev, cs, msgs[..n' + 1]);
  }

  /**
   * The loop waits the post-transfer delay of each message whose
   * transaction did not end the batch, in order, and of no other.
   */
  lemma {:induction false} RunMessagesUdelays(dev: nat, cs: U32, clk: nat, msgs: seq<Msg>, s: XState)
    requires ValidClock(clk)
    ensures Udelays(RunMessages(dev, cs, clk, msgs, s).state.trace) ==
      Udelays(s.trace) + DelaysOf(msgs[..FirstAbort(s.replies, |msgs|)])
    decreases |msgs|
  {
    if msgs != [] {
      if Aborts(Reply(s.replies, 0)) {
        RunAbort(dev, cs, clk, msgs, s);
        StepViews(dev, cs, clk, msgs[0], s);
      } else {
        RunMessagesUdelays(dev, cs, clk, msgs[1..], Continue(dev, cs, clk, msgs[0], s));
        UdelaysContinue(dev, cs, clk, msgs, s);
      }
    }
  }

  lemma UdelaysContinue(dev: nat, cs: U32, clk: nat, msgs: seq<Msg>, s: XState)
    requires ValidClock(clk) && msgs != [] && !Aborts(Reply(s.replies, 0))
    requires var c := Continue(dev, cs, clk, msgs[0], s);
      Udelays(RunMessages(dev, cs, clk, msgs[1..], c).state.trace) ==
        Udelays(c.trace) + DelaysOf(msgs[1..][..FirstAbort(c.replies, |msgs| - 1)])
    ensures Udelays(RunMessages(dev, cs, clk, msgs, s).state.trace) ==
      Udelays(s.trace) + DelaysOf(msgs[..FirstAbort(s.replies, |msgs|)])
  {
    var m := msgs[0];
    var c := Continue(dev, cs, clk, m, s);
    ContinueViews(dev, cs, clk, m, s);
    RunUnfold(dev, cs, clk, msgs, s);
    FirstAbortShift(s.replies, |msgs|);
    var k' := FirstAbort(c.replies, |msgs| - 1);
    DelaysCons(msgs, k');
    var u := Udelays(s.trace);
    var tail := DelaysOf(msgs[1..][..k']);
    assert FirstAbort(s.replies, |msgs|) == k' + 1;
    assert Udelays(RunMessages(dev, cs, clk, msgs, s).state.trace) == u + [m.csChangeDelay] + tail;
    assert u + [m.csChangeDelay] + tail == u + DelaysOf(msgs[..k' + 1]);
  }

  /** The loop only adds to the trace and never initialises the peripheral. */
  lemma {:induction false} RunMessagesKeepsTrace(dev: nat, cs: U32, clk: nat, msgs: seq<Msg>, s: XState)
    requires ValidClock(clk)
    ensures var t := RunMessages(dev, cs, clk, msgs, s).state.trace;
      InitCalls(t) == InitCalls(s.trace) && s.trace <= t
    decreases |msgs|
  {
    if msgs != [] {
      var m := msgs[0];
      if Aborts(Reply(s.replies, 0)) {
        RunAbort(dev, cs, clk, msgs, s);
        StepViews(dev, cs, clk, m, s);
      } else {
        ContinueViews(dev, cs, clk, m, s);
        RunUnfold(dev, cs, clk, msgs, s);
        RunMessagesKeepsTrace(dev, cs, clk, msgs[1..], Continue(dev, cs, clk, m, s));
      }
    }
  }

  /** A configuration initialises the peripheral once and issues no transaction. */
  lemma ConfigViews(v: SpiView, rs: seq<int>)
    ensures InitCalls(ConfigRun(v, rs).events) == 1
    ensures Transactions(ConfigRun(v, rs).events) == []
  {
    var ev := ConfigRun(v, rs).events;
    assert ev == [ev[0]] + ev[1..];
    forall j | 0 <= j < |ev[1..]| ensures !ev[1..][j].SdkInit? {
      assert ev[1..][j] in ev[1..];
    }
    InitFreeTrace(ev[1..]);
    CollectSingle(ev[0], InitOf);
    CollectAppend([ev[0]], ev[1..], InitOf);
    forall j | 0 <= j < |ev| ensures !ev[j].SdkTransaction? {
      if j > 0 {
        assert ev[j] in ev[1..];
      }
    }
    TransactionFreeTrace(ev);
  }

  /**
   * max_spi_transfer configures the peripheral exactly when the
   * chip-select differs from the instance's last one, and records the new
   * chip-select only once that configuration succeeded.
   */
  lemma TransferReconfigures(v: SpiView, clk: nat, last: U32, msgs: seq<Msg>, s: XState)
    requires ValidClock(clk)
    ensures var o := TransferSpec(v, clk, last, msgs, s);
      && InitCalls(o.state.trace) == InitCalls(s.trace) + (if v.cs != last then 1 else 0)
      && o.last == (if v.cs == last || ConfigRun(v, s.replies).ret == 0 then v.cs else last)
  {
    if v.cs != last {
      var c := ConfigRun(v, s.replies);
      ConfigViews(v, s.replies);
      CollectAppend(s.trace, c.events, InitOf);
      var s1 := s.(replies := c.rest, trace := s.trace + c.events);
      RunMessagesKeepsTrace(v.dev, v.cs, clk, msgs, s1);
    } else {
      RunMessagesKeepsTrace(v.dev, v.cs, clk, msgs, s);
    }
  }

  lemma {:induction false} InitFreeTrace(t: seq<Event>)
    requires forall j :: 0 <= j < |t| ==> !t[j].SdkInit?
    ensures InitCalls(t) == 0
    decreases |t|
  {
    if t != [] {
      InitFreeTrace(t[..|t| - 1]);
    }
  }

  /**
   * A failed reconfiguration is returned before any message is sent: no
   * transaction, no delay change, and the chip-select stays as it was.
   */
  lemma TransferConfigFailure(v: SpiView, clk: nat, last: U32, msgs: seq<Msg>, s: XState)
    requires ValidClock(clk)
    requires v.cs != last && ConfigRun(v, s.replies).ret != 0
    ensures var o := TransferSpec(v, clk, last, msgs, s);
      && o.ret == -EInval && o.last == last
      && o.state.cache == s.cache && o.state.reg == s.reg
      && Transactions(o.state.trace) == Transactions(s.trace)
  {
    ConfigViews(v, s.replies);
    CollectAppend(s.trace, ConfigRun(v, s.replies).events, TransactionOf);
  }

  lemma {:induction false} TransactionFreeTrace(t: seq<Event>)
    requires forall j :: 0 <= j < |t| ==> !t[j].SdkTransaction?
    ensures Transactions(t) == []
    decreases |t|
  {
    if t != [] {
      TransactionFreeTrace(t[..|t| - 1]);
    }
  }

  /**
   * A batch of three messages on an already selected chip-select whose
   * second transaction reports E_BAD_STATE: the first two requests are
   * issued, -EBUSY is returned, the third message is never attempted and
   * only the first message's delay is waited.
   */
  lemma BusyStopsBatch(v: SpiView, clk: nat, msgs: seq<Msg>, s: XState)
    requires ValidClock(clk)
    requires |msgs| == 3
    requires !Aborts(Reply(s.replies, 0)) && Reply(s.replies, 1) == EBadState
    ensures var o := TransferSpec(v, clk, v.cs, msgs, s);
      && o.ret == -EBusy
      && Transactions(o.state.trace) ==
           Transactions(s.trace) + [RequestFor(v.dev, v.cs, msgs[0]), RequestFor(v.dev, v.cs, msgs[1])]
      && Udelays(o.state.trace) == Udelays(s.trace) + [msgs[0].csChangeDelay]
  {
    RunMessagesResult(v.dev, v.cs, clk, msgs, s);
    RunMessagesTransactions(v.dev, v.cs, clk, msgs, s);
    RunMessagesUdelays(v.dev, v.cs, clk, msgs, s);
    assert FirstAbort(s.replies, 3) == 1;
  }

  /**
   * max_spi_write_and_read's message yields the request of a transfer of
   * one in-place message: both buffers `data`, both lengths `n` (0 for a
   * NULL buffer), chip-select deasserted afterwards.
   */
  lemma WriteAndReadRequest(dev: nat, cs: U32, data: Buf, n: U16)
    ensures RequestFor(dev, cs, SingleMessage(data, n)) ==
      Req(dev, cs, data, data, if data.Null? then 0 else n, if data.Null? then 0 else n, 0, 0, 1)
  {
  }

  /**
   * With the chip-select already recorded for the instance and the
   * message's delays already cached, a one-message transfer that the SDK
   * accepts makes no configuration call: it issues the transaction, waits
   * the message's delay and returns 0.
   */
  lemma TransferWithoutReconfiguration(v: SpiView, clk: nat, m: Msg, s: XState)
    requires ValidClock(clk) && Reply(s.replies, 0) == ENoError
    requires m.csDelayFirst == s.cache.first && m.csDelayLast == s.cache.last
    ensures TransferSpec(v, clk, v.cs, [m], s) ==
      TransferOutcome(0, v.cs, s.(replies := Drop(s.replies, 1),
        trace := s.trace + [SdkTransaction(RequestFor(v.dev, v.cs, m)), Udelay(m.csChangeDelay)]))
  {
    RunUnfold(v.dev, v.cs, clk, [m], s);
    assert [m][1..] == [];
  }
}
