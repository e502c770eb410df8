/** One pass of the main loop's refresh (src/main.rs:259-331): the host readings slide
    into the four sample windows, the network totals go through the rate estimator, and
    the tab on screen has its lists replaced by fresh listings, the Docker tab also
    recording one usage sample per listed container. Selections are left exactly as they
    were, so a shorter list can leave one pointing past its end. */
module Tick {
  import opened Base
  import opened Records
  import opened Selection
  import opened History
  import opened Rate
  import opened App

  // ---------------------------------------------------------------------------
  // Host windows and rates

  /** The four sample windows (CPU %, RAM %, receive and send rate in KB/s) and the
      previous network totals. */
  datatype Host = Host(cpu: seq<nat>, ram: seq<nat>, received: seq<nat>, sent: seq<nat>,
                       counters: Counters)

  /** Every window has the fixed length. */
  predicate WindowsFull(h: Host) {
    |h.cpu| == WindowLength && |h.ram| == WindowLength
    && |h.received| == WindowLength && |h.sent| == WindowLength
  }

  /** The state before the first tick: four windows of zeros and no previous totals. */
  function InitialHost(): (h: Host)
    ensures WindowsFull(h) && h.counters == Rate.Start
    ensures forall i :: 0 <= i < WindowLength ==> h.cpu[i] == 0 && h.ram[i] == 0 && h.received[i] == 0 && h.sent[i] == 0
  {
    Host(ZeroWindow(), ZeroWindow(), ZeroWindow(), ZeroWindow(), Rate.Start)
  }

  /** Per-interface byte counts as the metrics library reports them on one refresh. */
  datatype Interface = Interface(received: nat, transmitted: nat)

  function TotalReceived(ifs: seq<Interface>): nat {
    if |ifs| == 0 then 0 else ifs[0].received + TotalReceived(ifs[1..])
  }

  function TotalTransmitted(ifs: seq<Interface>): nat {
    if |ifs| == 0 then 0 else ifs[0].transmitted + TotalTransmitted(ifs[1..])
  }

  /** One refresh of the host: CPU and RAM as the whole percentages pushed (the float
      rounding and truncation happen before this model), the interfaces, and `kbs`, this
      tick's conversion of a byte delta into the KB/s pushed (division by 1024 and by the
      seconds elapsed since the previous tick, then rounding, all floating point). */
  datatype Reading = Reading(cpu: nat, ram: nat, interfaces: seq<Interface>, kbs: nat -> nat)

  /** The rate pushed for one direction: zero without a previous total, else the delta in
      bytes converted by `kbs`. */
  function PushedRate(deltas: Option<Deltas>, received: bool, kbs: nat -> nat): nat {
    match deltas
    case None => 0
    case Some(d) => kbs(if received then d.received else d.transmitted)
  }

  /** The host part of a tick: every window drops its oldest sample and gains this
      tick's, the rate windows gaining the converted deltas of the summed readings. */
  function HostTick(h: Host, r: Reading): (h': Host)
    requires WindowsFull(h)
    ensures WindowsFull(h')
    ensures h'.cpu == h.cpu[1..] + [r.cpu] && h'.ram == h.ram[1..] + [r.ram]
    ensures var st := Step(h.counters, TotalReceived(r.interfaces), TotalTransmitted(r.interfaces));
      && h'.received == h.received[1..] + [PushedRate(st.deltas, true, r.kbs)]
      && h'.sent == h.sent[1..] + [PushedRate(st.deltas, false, r.kbs)]
    ensures h'.counters == Counters(Some(TotalReceived(r.interfaces)), Some(TotalTransmitted(r.interfaces)))
  {
    var step := Step(h.counters, TotalReceived(r.interfaces), TotalTransmitted(r.interfaces));
    Host(Slide(h.cpu, r.cpu), Slide(h.ram, r.ram),
         Slide(h.received, PushedRate(step.deltas, true, r.kbs)),
         Slide(h.sent, PushedRate(step.deltas, false, r.kbs)),
         step.next)
  }

  /** The newest sample of a window. */
  function Newest(w: seq<nat>): nat
    requires |w| > 0
  {
    w[|w| - 1]
  }

  /** The first tick has no previous sums, so both rates pushed are zero whatever the
      interfaces read; the second tick pushes the converted growth of the sums. */
  lemma FirstTicksRates(r1: Reading, r2: Reading)
    requires TotalReceived(r1.interfaces) <= TotalReceived(r2.interfaces)
    requires TotalTransmitted(r1.interfaces) <= TotalTransmitted(r2.interfaces)
    ensures var h1 := HostTick(InitialHost(), r1);
      && Newest(h1.received) == 0 && Newest(h1.sent) == 0
      && var h2 := HostTick(h1, r2);
      && Newest(h2.received) == r2.kbs(TotalReceived(r2.interfaces) - TotalReceived(r1.interfaces))
      && Newest(h2.sent) == r2.kbs(TotalTransmitted(r2.interfaces) - TotalTransmitted(r1.interfaces))
  {
  }

  /** Zero bytes convert to a rate of zero, whatever the elapsed time: the source divides
      by an elapsed time of at least a microsecond (src/main.rs:280, 287-288). */
  predicate ZeroIsStill(r: Reading) {
    r.kbs(0) == 0
  }

  /** A sum smaller than the previous one (an interface disappeared, or the readings
      fell) pushes a zero rate in that direction rather than a negative or wrapped one. */
  lemma CounterResetPushesZeroBytes(h: Host, r: Reading)
    requires WindowsFull(h) && h.counters.prevReceived.Some? && h.counters.prevTransmitted.Some?
    requires ZeroIsStill(r)
    ensures TotalReceived(r.interfaces) < h.counters.prevReceived.value
      ==> Newest(HostTick(h, r).received) == 0
    ensures TotalTransmitted(r.interfaces) < h.counters.prevTransmitted.value
      ==> Newest(HostTick(h, r).sent) == 0
  {
  }

  /** Ticks in sequence, each with its own reading and conversion. */
  function HostTicks(h: Host, rs: seq<Reading>): Host
    requires WindowsFull(h)
    decreases |rs|
  {
    if |rs| == 0 then h else HostTicks(HostTick(h, rs[0]), rs[1..])
  }

  /** The CPU readings of a run. */
  function CpuOf(rs: seq<Reading>): (r: seq<nat>)
    ensures |r| == |rs| && forall i :: 0 <= i < |rs| ==> r[i] == rs[i].cpu
  {
    seq(|rs|, i requires 0 <= i < |rs| => rs[i].cpu)
  }

  /** After any number of ticks the CPU window still has sixty samples: the latest
      readings, preceded by as many of the initial zeros as are left. */
  lemma {:induction false} CpuWindowIsLatest(h: Host, rs: seq<Reading>)
    requires WindowsFull(h)
    ensures WindowsFull(HostTicks(h, rs))
    ensures HostTicks(h, rs).cpu == SlideAll(h.cpu, CpuOf(rs))
    decreases |rs|
  {
    if |rs| > 0 {
      var h' := HostTick(h, rs[0]);
      CpuWindowIsLatest(h', rs[1..]);
      assert CpuOf(rs[1..]) == CpuOf(rs)[1..];
    }
  }

  // ---------------------------------------------------------------------------
  // Inventory refresh

  /** What the listing commands print on this tick. */
  datatype Listings = Listings(ps: Output, stats: Output, images: Output, pods: Output)

  /** The usage sample recorded for a container: its CPU and memory figures and both
      halves of its network I/O column. */
  function SampleOf(c: Container): (st: ContainerStats)
    ensures st.cpuPercent == c.cpuPercent && st.memPercent == c.memPercent
    ensures (st.netRx, st.netTx) == ParseNetIo(c.netIo)
  {
    ContainerStats(c.cpuPercent, c.memPercent, ParseNetIo(c.netIo).0, ParseNetIo(c.netIo).1)
  }

  /** One update per listed container, in listing order. */
  function Updates(cs: seq<Container>): (u: seq<(string, ContainerStats)>)
    ensures |u| == |cs|
    ensures forall i :: 0 <= i < |cs| ==> u[i] == (cs[i].id, SampleOf(cs[i]))
  {
    seq(|cs|, i requires 0 <= i < |cs| => (cs[i].id, SampleOf(cs[i])))
  }

  /** The IDs of the listed containers. */
  function Ids(cs: seq<Container>): set<string> {
    set i | 0 <= i < |cs| :: cs[i].id
  }

  /** The list refresh of a tick: the Docker tab re-lists containers (joined with their
      usage figures), records their samples and re-lists images; the Kubernetes tab
      re-lists pods; the System tab refreshes nothing. */
  function RefreshLists(s: AppState, l: Listings): AppState
  {
    match s.tab
    case DockerTab => DockerRefresh(s, ContainersWithStats(l.ps, l.stats), DockerImages(l.images))
    case KubernetesTab => s.(pods := KubernetesPods(l.pods))
    case SystemTab => s
  }

  /** The Docker tab's part of a refresh, given the containers (already joined with their
      usage figures) and images the listings yielded: both lists are replaced and every
      listed container records its sample, in listing order. */
  function DockerRefresh(s: AppState, cs: seq<Container>, images: seq<Image>): AppState
  {
    s.(containers := cs, history := RecordAll(s.history, Updates(cs)), images := images)
  }

  /** Refreshing never touches the tab, the selections, the view, the dialog or the
      message, and replaces exactly the lists of the tab on screen. */
  lemma RefreshKeepsSelections(s: AppState, l: Listings)
    ensures var r := RefreshLists(s, l);
      && r.tab == s.tab && r.dockerSel == s.dockerSel && r.k8sSel == s.k8sSel && r.view == s.view
      && r.dialog == s.dialog && r.showDialog == s.showDialog && r.message == s.message
      && (s.tab != DockerTab ==> r.containers == s.containers && r.images == s.images && r.history == s.history)
      && (s.tab != KubernetesTab ==> r.pods == s.pods)
      && (s.tab == DockerTab ==> r.containers == ContainersWithStats(l.ps, l.stats) && r.images == DockerImages(l.images)
                                 && r.history == DockerRefresh(s, r.containers, r.images).history)
      && (s.tab == KubernetesTab ==> r.pods == KubernetesPods(l.pods))
  {
  }

  /** The Docker refresh gives every listed container a history and removes none; a
      history of a container no longer listed is kept unchanged. */
  lemma RefreshRecordsListed(s: AppState, cs: seq<Container>, images: seq<Image>)
    ensures var r := DockerRefresh(s, cs, images);
      && r.history.Keys == s.history.Keys + Ids(cs)
      && (forall k :: k in s.history && k !in Ids(cs) ==> r.history[k] == s.history[k])
      && (Capped(s.history) ==> Capped(r.history))
  {
    var u := Updates(cs);
    assert UpdatedIds(u) == Ids(cs) by {
      forall k | k in Ids(cs) ensures k in UpdatedIds(u) {
        var i :| 0 <= i < |cs| && cs[i].id == k;
        assert u[i].0 == k;
      }
    }
    RecordAllKeys(s.history, u);
    forall k | k in s.history && k !in Ids(cs)
      ensures RecordAll(s.history, u)[k] == s.history[k]
    {
      RecordAllLeavesOthers(s.history, u, k);
    }
    if Capped(s.history) {
      RecordAllKeepsCapped(s.history, u);
    }
  }

  /** A container listed once has its fresh usage sample as its newest history entry. */
  lemma RefreshRecordsSample(s: AppState, cs: seq<Container>, images: seq<Image>, i: nat)
    requires i < |cs|
    requires forall j :: i < j < |cs| ==> cs[j].id != cs[i].id
    ensures var r := DockerRefresh(s, cs, images);
      cs[i].id in r.history && |r.history[cs[i].id]| > 0
      && r.history[cs[i].id][|r.history[cs[i].id]| - 1] == SampleOf(cs[i])
  {
    var u := Updates(cs);
    assert u[i] == (cs[i].id, SampleOf(cs[i]));
    forall j | i < j < |u|
      ensures u[j].0 != u[i].0
    {
      assert u[j].0 == cs[j].id;
    }
    RecordAllLast(s.history, u, i);
  }

  /** A refresh that lists fewer rows than the selected index leaves the selection past
      the end: the row keys then do nothing until the user moves the cursor. */
  lemma RefreshCanStrandSelection(s: AppState, cs: seq<Container>, images: seq<Image>,
                                  key: Key, now: nat, run: Output)
    requires s.tab == DockerTab && s.view == ContainersView && !s.showDialog
    requires s.dockerSel.Some? && |cs| <= s.dockerSel.value
    requires RowKey(key)
    ensures var r := DockerRefresh(s, cs, images);
      r.dockerSel == s.dockerSel && !InRange(r.dockerSel, DockerRows(r))
      && HandleKey(r, key, now, run) == Continue(r, [])
  {
    StaleSelectionIgnored(DockerRefresh(s, cs, images), key, now, run);
  }
}
