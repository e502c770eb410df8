/** The dashboard's state (`AppState`, src/main.rs:62-146) and what one key press does to
    it (src/main.rs:390-545). A key either quits or yields the next state together with the
    external commands it starts (`docker ...`, `kubectl ...`); the commands are data here,
    and the only one whose result matters, the dialog's `docker run`, has its result passed
    in. */
module App {
  import opened Base
  import opened Records
  import opened Selection
  import opened History
  import opened Dialog
  import opened CreateContainer

  datatype MonitorTab = SystemTab | DockerTab | KubernetesTab

  datatype DockerView = ContainersView | ImagesView

  /** One per-container usage sample (`ContainerStats`). */
  datatype ContainerStats = ContainerStats(cpuPercent: Metric, memPercent: Metric,
                                           netRx: NetAmount, netTx: NetAmount)

  datatype AppState = AppState(
    tab: MonitorTab,
    dockerSel: Option<nat>,
    containers: seq<Container>,
    images: seq<Image>,
    pods: seq<Pod>,
    k8sSel: Option<nat>,
    view: DockerView,
    message: string,
    showDialog: bool,
    dialog: Form,
    history: map<string, seq<ContainerStats>>)

  /** `AppState::new()`: the System tab, both tables on their first row although they are
      still empty, the container view, no message, no dialog, no history. */
  function New(): (s: AppState)
    ensures s.tab == SystemTab && s.view == ContainersView
    ensures s.dockerSel == Initial && s.k8sSel == Initial
    ensures s.containers == [] && s.images == [] && s.pods == [] && s.history == map[]
    ensures !s.showDialog && s.dialog == Empty() && s.message == ""
  {
    AppState(SystemTab, Initial, [], [], [], Initial, ContainersView, "", false, Empty(), map[])
  }

  // ---------------------------------------------------------------------------
  // Keys and the commands they start

  /** The keys the dashboard distinguishes; every other key is `Other`. */
  datatype KeyCode = Char(c: char) | Esc | Tab | BackTab | Backspace | Enter | Up | Down | Delete | Other

  /** A key press: its code and whether Control was held. */
  datatype Key = Key(code: KeyCode, ctrl: bool)

  /** An external command: the program and its arguments. */
  datatype Process = Process(program: string, args: seq<string>)

  /** What a key press leads to: leaving the main loop, or the next state together with
      the commands started, in order. */
  datatype Outcome = Quit | Continue(state: AppState, started: seq<Process>)

  function Docker(args: seq<string>): Process {
    Process("docker", args)
  }

  /** The number of rows in the Docker table the view shows. */
  function DockerRows(s: AppState): nat {
    if s.view == ContainersView then |s.containers| else |s.images|
  }

  /** A key that does not quit starts at most one command and leaves the listed
      containers, images, pods and the usage history as they were. */
  predicate KeepsInventory(s: AppState, o: Outcome) {
    o.Continue? ==>
      && |o.started| <= 1
      && o.state.containers == s.containers && o.state.images == s.images
      && o.state.pods == s.pods && o.state.history == s.history
  }

  /** A key while the dialog is open: every key goes to the dialog (src/main.rs:392-427). */
  function DialogKey(s: AppState, code: KeyCode, run: Output): (r: Outcome)
    ensures KeepsInventory(s, r)
  {
    match code
    case Esc => Continue(s.(showDialog := false, dialog := Empty()), [])
    case Tab => Continue(s.(dialog := FocusNext(s.dialog)), [])
    case BackTab => Continue(s.(dialog := FocusPrevious(s.dialog)), [])
    case Char(c) => Continue(s.(dialog := TypeChar(s.dialog, c)), [])
    case Backspace => Continue(s.(dialog := Dialog.Backspace(s.dialog)), [])
    case Enter =>
      var started := match RunArgs(s.dialog)
        case None => []
        case Some(args) => [Docker(args)];
      Continue(s.(message := CreateMessage(s.dialog, run), showDialog := false, dialog := Empty()), started)
    case _ => Continue(s, [])
  }

  /** A command on the selected container, if the selection is inside the list. */
  function OnContainer(s: AppState, command: string, verb: string): (r: Outcome)
    ensures KeepsInventory(s, r)
  {
    match Selected(s.containers, s.dockerSel)
    case None => Continue(s, [])
    case Some(c) => Continue(s.(message := verb + c.name), [Docker([command, c.id])])
  }

  /** The preset a letter starts on the Docker tab. */
  function PresetKey(c: char): Option<Preset> {
    if c == 'p' then Some(Postgres)
    else if c == 'r' then Some(Redis)
    else if c == 'm' then Some(MongoDb)
    else if c == 'g' then Some(Grafana)
    else None
  }

  /** A character key outside the dialog. The source tests `q`, then Control+S, D and K,
      and only then the letters whose guards require the Docker or Kubernetes tab, so
      dispatching on the tab after the Control keys keeps its order. */
  function CharKey(s: AppState, c: char, ctrl: bool, now: nat): (r: Outcome)
    ensures KeepsInventory(s, r)
  {
    if c == 'q' then Quit
    else if c == 's' && ctrl then Continue(s.(tab := SystemTab), [])
    else if c == 'd' && ctrl then Continue(s.(tab := DockerTab), [])
    else if c == 'k' && ctrl then Continue(s.(tab := KubernetesTab), [])
    else if s.tab == DockerTab then DockerCharKey(s, c, now)
    else if s.tab == KubernetesTab then KubernetesCharKey(s, c)
    else Continue(s, [])
  }

  /** The Docker tab's letters: `n` opens the dialog, `p`, `r`, `m` and `g` start a preset,
      `x` stops the selected container or removes the selected image, and, in the
      container view, `s` starts and `t` restarts the selected container. */
  function DockerCharKey(s: AppState, c: char, now: nat): (r: Outcome)
    ensures KeepsInventory(s, r)
  {
    if c == 'n' then Continue(s.(showDialog := true, dialog := Empty()), [])
    else if PresetKey(c).Some? then
      var p := PresetKey(c).value;
      Continue(s.(message := PresetMessage(p)), [Docker(PresetArgs(p, now))])
    else if c == 'x' then
      if s.view == ContainersView then OnContainer(s, "stop", "Stopped container: ")
      else
        match Selected(s.images, s.dockerSel)
        case None => Continue(s, [])
        case Some(img) => Continue(s.(message := "Deleted image: " + img.repository),
                                   [Docker(["rmi", "-f", img.imageId])])
    else if c == 's' && s.view == ContainersView then OnContainer(s, "start", "Started container: ")
    else if c == 't' && s.view == ContainersView then OnContainer(s, "restart", "Restarting container: ")
    else Continue(s, [])
  }

  /** The Kubernetes tab's letter: `d` deletes the selected pod in its namespace. */
  function KubernetesCharKey(s: AppState, c: char): (r: Outcome)
    ensures KeepsInventory(s, r)
  {
    if c == 'd' then
      match Selected(s.pods, s.k8sSel)
      case None => Continue(s, [])
      case Some(pod) => Continue(s.(message := "Deleted pod: " + pod.name),
                                 [Process("kubectl", ["delete", "pod", pod.name, "-n", pod.namespace])])
    else Continue(s, [])
  }

  /** A key outside the dialog (src/main.rs:428-543). */
  function MainKey(s: AppState, key: Key, now: nat): (r: Outcome)
    ensures KeepsInventory(s, r)
  {
    match key.code
    case Char(c) => CharKey(s, c, key.ctrl, now)
    case Down =>
      if s.tab == DockerTab then Continue(s.(dockerSel := Next(s.dockerSel, DockerRows(s))), [])
      else if s.tab == KubernetesTab then Continue(s.(k8sSel := Next(s.k8sSel, |s.pods|)), [])
      else Continue(s, [])
    case Up =>
      if s.tab == DockerTab then Continue(s.(dockerSel := Previous(s.dockerSel, DockerRows(s))), [])
      else if s.tab == KubernetesTab then Continue(s.(k8sSel := Previous(s.k8sSel, |s.pods|)), [])
      else Continue(s, [])
    case Tab =>
      if s.tab == DockerTab then
        var view := if s.view == ContainersView then ImagesView else ContainersView;
        Continue(s.(view := view, dockerSel := Initial), [])
      else Continue(s, [])
    case Delete =>
      if s.tab == DockerTab && s.view == ContainersView then
        match Selected(s.containers, s.dockerSel)
        case None => Continue(s, [])
        case Some(c) => Continue(s.(message := "Deleted container: " + c.name),
                                 [Docker(["rm", "-f", c.id])])
      else Continue(s, [])
    case _ => Continue(s, [])
  }

  /** One key press. `now` is the Unix time a preset names its container after, and `run`
      is what the dialog's `docker run` returns when Enter starts it. A key that does not
      quit starts at most one command and leaves the listed containers, images, pods and
      the usage history as they were: only a refresh replaces them. */
  function HandleKey(s: AppState, key: Key, now: nat, run: Output): (r: Outcome)
    ensures KeepsInventory(s, r)
  {
    if s.showDialog then DialogKey(s, key.code, run) else MainKey(s, key, now)
  }

  // ---------------------------------------------------------------------------
  // Properties of key handling

  /** The parts of the state the dialog never touches. */
  predicate SameOutside(a: AppState, b: AppState) {
    && a.tab == b.tab && a.dockerSel == b.dockerSel && a.k8sSel == b.k8sSel && a.view == b.view
    && a.containers == b.containers && a.images == b.images && a.pods == b.pods
    && a.history == b.history
  }

  /** While the dialog is open every key goes to it: nothing quits (`q` is typed like any
      other character), no tab or selection changes, and nothing but the dialog's own
      `docker run` is started. */
  lemma DialogCapturesKeys(s: AppState, key: Key, now: nat, run: Output)
    requires s.showDialog
    ensures var o := HandleKey(s, key, now, run);
      && o.Continue?
      && SameOutside(o.state, s)
      && (key.code != Enter ==> o.started == [])
      && (key.code.Char? ==> o.state.dialog == TypeChar(s.dialog, key.code.c) && o.state.showDialog)
  {
    match key.code
    case Enter =>
    case Char(c) =>
    case _ =>
  }

  /** Esc and Enter both close the dialog and clear the form; only Enter starts
      `docker run`, and only when an image name was typed. */
  lemma DialogCloses(s: AppState, now: nat, run: Output)
    requires s.showDialog
    ensures var o := HandleKey(s, Key(Esc, false), now, run);
      o.Continue? && !o.state.showDialog && o.state.dialog == Empty() && o.started == []
    ensures var o := HandleKey(s, Key(Enter, false), now, run);
      && o.Continue? && !o.state.showDialog && o.state.dialog == Empty()
      && o.state.message == CreateMessage(s.dialog, run)
      && (|o.started| == 1 <==> s.dialog.imageName != "")
      && (s.dialog.imageName != "" ==> o.started == [Docker(RunArgs(s.dialog).value)])
  {
  }

  /** The dashboard quits exactly on `q` outside the dialog, whatever the modifiers. */
  lemma QuitOnlyOnQ(s: AppState, key: Key, now: nat, run: Output)
    ensures HandleKey(s, key, now, run).Quit? <==> !s.showDialog && key.code == Char('q')
  {
  }

  /** Control+S and Control+D switch tabs even where plain `s` starts a container and
      plain `d` deletes a pod; nothing else changes and nothing is started. */
  lemma ControlKeysSwitchTabs(s: AppState, now: nat, run: Output)
    requires !s.showDialog
    ensures HandleKey(s, Key(Char('s'), true), now, run) == Continue(s.(tab := SystemTab), [])
    ensures HandleKey(s, Key(Char('d'), true), now, run) == Continue(s.(tab := DockerTab), [])
    ensures HandleKey(s, Key(Char('k'), true), now, run) == Continue(s.(tab := KubernetesTab), [])
  {
  }

  /** Tab on the Docker tab flips between containers and images and puts the cursor back
      on the first row, even when the new table is empty; a second Tab restores the view. */
  lemma ViewToggle(s: AppState, now: nat, run: Output)
    requires !s.showDialog && s.tab == DockerTab
    ensures var o := HandleKey(s, Key(Tab, false), now, run);
      && o.Continue? && o.started == [] && o.state.dockerSel == Some(0)
      && o.state.view != s.view
      && HandleKey(o.state, Key(Tab, false), now, run).state.view == s.view
  {
  }

  /** The row keys act on: the selected container, image or pod when the selection is
      inside the current list. */
  predicate HasTarget(s: AppState) {
    match s.tab
    case DockerTab =>
      if s.view == ContainersView then Selected(s.containers, s.dockerSel).Some?
      else Selected(s.images, s.dockerSel).Some?
    case KubernetesTab => Selected(s.pods, s.k8sSel).Some?
    case SystemTab => false
  }

  /** The keys that act on a selected row. */
  predicate RowKey(key: Key) {
    (key.code == Delete || key.code == Char('x') || key.code == Char('t')
     || key.code == Char('s') || key.code == Char('d')) && !key.ctrl
  }

  /** With a stale or missing selection, a row key is silently ignored: nothing is
      started and the state, message included, is unchanged. */
  lemma StaleSelectionIgnored(s: AppState, key: Key, now: nat, run: Output)
    requires !s.showDialog && !HasTarget(s) && RowKey(key)
    ensures HandleKey(s, key, now, run) == Continue(s, [])
  {
    if s.tab == DockerTab {
      StaleDockerRowKey(s, key, now);
    } else {
      match key.code
      case Delete =>
      case Char(c) =>
    }
  }

  lemma StaleDockerRowKey(s: AppState, key: Key, now: nat)
    requires s.tab == DockerTab && !HasTarget(s) && RowKey(key)
    ensures MainKey(s, key, now) == Continue(s, [])
  {
    match key.code
    case Delete =>
    case Char(c) =>
      if c == 'x' {
        assert DockerCharKey(s, 'x', now) == Continue(s, []);
      } else {
        assert PresetKey(c).None?;
      }
  }

  /** Each container key starts exactly one `docker` command on the selected container's
      ID and reports its name. */
  lemma ContainerKeysTargetSelection(s: AppState, now: nat, run: Output)
    requires !s.showDialog && s.tab == DockerTab && s.view == ContainersView
    requires Selected(s.containers, s.dockerSel).Some?
    ensures var c := s.containers[s.dockerSel.value];
      && HandleKey(s, Key(Char('x'), false), now, run)
           == Continue(s.(message := "Stopped container: " + c.name), [Docker(["stop", c.id])])
      && HandleKey(s, Key(Char('s'), false), now, run)
           == Continue(s.(message := "Started container: " + c.name), [Docker(["start", c.id])])
      && HandleKey(s, Key(Char('t'), false), now, run)
           == Continue(s.(message := "Restarting container: " + c.name), [Docker(["restart", c.id])])
      && HandleKey(s, Key(Delete, false), now, run)
           == Continue(s.(message := "Deleted container: " + c.name), [Docker(["rm", "-f", c.id])])
  {
    assert PresetKey('x').None? && PresetKey('s').None? && PresetKey('t').None?;
    assert HandleKey(s, Key(Char('x'), false), now, run) == OnContainer(s, "stop", "Stopped container: ");
    assert HandleKey(s, Key(Char('s'), false), now, run) == OnContainer(s, "start", "Started container: ");
    assert HandleKey(s, Key(Char('t'), false), now, run) == OnContainer(s, "restart", "Restarting container: ");
  }

  /** In the image view `x` removes the selected image by its ID, and in the pod table `d`
      deletes the selected pod in its namespace. */
  lemma ImageAndPodKeysTargetSelection(s: AppState, now: nat, run: Output)
    requires !s.showDialog
    ensures s.tab == DockerTab && s.view == ImagesView && Selected(s.images, s.dockerSel).Some? ==>
      var img := s.images[s.dockerSel.value];
      HandleKey(s, Key(Char('x'), false), now, run)
        == Continue(s.(message := "Deleted image: " + img.repository), [Docker(["rmi", "-f", img.imageId])])
    ensures s.tab == KubernetesTab && Selected(s.pods, s.k8sSel).Some? ==>
      var pod := s.pods[s.k8sSel.value];
      HandleKey(s, Key(Char('d'), false), now, run)
        == Continue(s.(message := "Deleted pod: " + pod.name),
                    [Process("kubectl", ["delete", "pod", pod.name, "-n", pod.namespace])])
  {
  }

  /** Container-only keys do nothing in the image view. */
  lemma ContainerKeysIgnoredInImageView(s: AppState, now: nat, run: Output)
    requires !s.showDialog && s.tab == DockerTab && s.view == ImagesView
    ensures HandleKey(s, Key(Char('s'), false), now, run) == Continue(s, [])
    ensures HandleKey(s, Key(Char('t'), false), now, run) == Continue(s, [])
    ensures HandleKey(s, Key(Delete, false), now, run) == Continue(s, [])
  {
  }

  /** A preset key on the Docker tab starts that preset's container and says so. */
  lemma PresetKeys(s: AppState, c: char, now: nat, run: Output)
    requires !s.showDialog && s.tab == DockerTab && PresetKey(c).Some?
    ensures HandleKey(s, Key(Char(c), false), now, run)
      == Continue(s.(message := PresetMessage(PresetKey(c).value)), [Docker(PresetArgs(PresetKey(c).value, now))])
  {
  }

  /** Up and Down keep a selection that is inside the list inside it. */
  lemma NavigationStaysInRange(s: AppState, key: Key, now: nat, run: Output)
    requires !s.showDialog && (key.code == Up || key.code == Down)
    requires s.tab == DockerTab ==> InRange(s.dockerSel, DockerRows(s))
    requires s.tab == KubernetesTab ==> InRange(s.k8sSel, |s.pods|)
    ensures var o := HandleKey(s, key, now, run);
      && o.Continue? && o.started == []
      && (s.tab == DockerTab ==> InRange(o.state.dockerSel, DockerRows(o.state)))
      && (s.tab == KubernetesTab ==> InRange(o.state.k8sSel, |o.state.pods|))
  {
    if s.tab == DockerTab {
      MovesStayInRange(s.dockerSel, DockerRows(s));
    } else if s.tab == KubernetesTab {
      MovesStayInRange(s.k8sSel, |s.pods|);
    }
  }

  /** On the System tab only `q` and the Control tab switches act: every other key, the
      Docker and Kubernetes command keys included, opens no dialog, starts nothing and
      leaves the state as it was apart from the tab. */
  lemma SystemTabIsPassive(s: AppState, key: Key, now: nat, run: Output)
    requires !s.showDialog && s.tab == SystemTab
    requires key.code != Char('q')
    ensures var o := HandleKey(s, key, now, run);
      o.Continue? && o.started == [] && o.state == s.(tab := o.state.tab)
  {
  }
}
