/** The inventory records the dashboard keeps (containers, images, pods) and the parsers
    that build them from the delimited lines `docker ps`, `docker stats`, `docker images`
    and `kubectl get pods` print, including the left join of the container list with the
    usage figures (src/main.rs:1147-1237, 1261-1292, 1480-1515) and the split of the
    network I/O column (src/main.rs:1239-1259). */
module Records {
  import opened Base
  import opened Text
  import opened Listing

  /** A floating-point figure read with `parse::<f64>().unwrap_or(0.0)`. `Parsed(text)`
      stands for whatever that parse yields for `text`; `Zero` is the `0.0` placeholder
      used when a container has no usage row. The float itself is not modelled. */
  datatype Metric = Zero | Parsed(text: string)

  /** One side of a `docker stats` network I/O figure: the number in front of a `kB`, `MB`
      or `GB` unit together with the unit's power of 1024 (0, 1 or 2), or no amount when
      the unit is missing or unknown (which the source reads as `0.0`). */
  datatype NetAmount = NoAmount | Amount(number: string, power: nat)

  /** A line of `docker ps -a --format {{.ID}}|{{.Image}}|{{.Names}}|{{.Status}}|{{.Ports}}`. */
  datatype PsRow = PsRow(id: string, image: string, name: string, status: string, ports: string)

  /** A line of `docker stats --no-stream` with ID, CPU%, memory usage, memory %, net I/O
      and block I/O. */
  datatype StatsRow = StatsRow(id: string, cpuPercent: Metric, memUsage: string,
                               memPercent: Metric, netIo: string, blockIo: string)

  datatype Container = Container(id: string, image: string, name: string, status: string,
                                 ports: string, cpuPercent: Metric, memUsage: string,
                                 memPercent: Metric, netIo: string, blockIo: string)

  datatype Image = Image(repository: string, tag: string, imageId: string, size: string)

  datatype Pod = Pod(name: string, namespace: string, status: string, restarts: string, age: string)

  /** A field that survives being written between `|` separators on a line of its own. */
  predicate PlainField(s: string) {
    '|' !in s && '\n' !in s && '\r' !in s
  }

  /** A percentage column as `docker stats` prints it is read by dropping every trailing
      `%`: the text kept is a prefix of the column not ending in `%`, and everything after
      it is `%` signs. */
  function PercentMetric(column: string): (m: Metric)
    ensures m.Parsed? && |m.text| <= |column| && m.text == column[..|m.text|]
    ensures forall i :: |m.text| <= i < |column| ==> column[i] == '%'
    ensures |m.text| > 0 ==> m.text[|m.text| - 1] != '%'
  {
    Parsed(TrimEndChar(column, '%'))
  }

  // ---------------------------------------------------------------------------
  // Line parsers

  /** A `docker ps` line: kept when splitting on `|` gives at least five pieces, which
      become the first five fields; later pieces are ignored. */
  function ParsePsLine(line: string): (r: Option<PsRow>)
    ensures r.Some? <==> |Split(line, '|')| >= 5
  {
    var p := Split(line, '|');
    if |p| >= 5 then Some(PsRow(p[0], p[1], p[2], p[3], p[4])) else None
  }

  /** The line `docker ps` prints for a row under the dashboard's format template. */
  function FormatPsLine(row: PsRow): string
  {
    Join([row.id, row.image, row.name, row.status, row.ports], '|')
  }

  predicate PlainPsRow(row: PsRow) {
    PlainField(row.id) && PlainField(row.image) && PlainField(row.name)
    && PlainField(row.status) && PlainField(row.ports)
  }

  /** Every row whose fields carry no separator is read back from its printed line. */
  lemma ParsePsLineRoundTrip(row: PsRow)
    requires PlainPsRow(row)
    ensures ParsePsLine(FormatPsLine(row)) == Some(row)
    ensures '\n' !in FormatPsLine(row) && '\r' !in FormatPsLine(row)
  {
    var parts := [row.id, row.image, row.name, row.status, row.ports];
    SplitJoin(parts, '|');
    JoinExcludes(parts, '|', '\n');
    JoinExcludes(parts, '|', '\r');
  }

  /** A `docker stats` line: kept with at least six `|`-separated pieces; the CPU and
      memory percentages lose their trailing `%` signs before being read as numbers. */
  function ParseStatsLine(line: string): (r: Option<StatsRow>)
    ensures r.Some? <==> |Split(line, '|')| >= 6
  {
    var p := Split(line, '|');
    if |p| >= 6 then Some(StatsRow(p[0], PercentMetric(p[1]), p[2], PercentMetric(p[3]), p[4], p[5]))
    else None
  }

  /** A usage line whose percentages are printed as a number followed by `%` is read back
      with exactly those numbers. */
  lemma ParseStatsLineRoundTrip(id: string, cpu: string, memUsage: string, mem: string, netIo: string, blockIo: string)
    requires PlainField(id) && PlainField(cpu) && PlainField(memUsage)
    requires PlainField(mem) && PlainField(netIo) && PlainField(blockIo)
    requires |cpu| == 0 || cpu[|cpu| - 1] != '%'
    requires |mem| == 0 || mem[|mem| - 1] != '%'
    ensures ParseStatsLine(Join([id, cpu + "%", memUsage, mem + "%", netIo, blockIo], '|'))
         == Some(StatsRow(id, Parsed(cpu), memUsage, Parsed(mem), netIo, blockIo))
  {
    var parts := [id, cpu + "%", memUsage, mem + "%", netIo, blockIo];
    assert '|' !in cpu + "%" && '|' !in mem + "%";
    SplitJoin(parts, '|');
    TrimEndCharOne(cpu, '%');
    TrimEndCharOne(mem, '%');
  }

  lemma TrimEndCharOne(s: string, c: char)
    requires |s| == 0 || s[|s| - 1] != c
    ensures TrimEndChar(s + [c], c) == s
  {
    assert (s + [c])[..|s|] == s;
  }

  /** A `docker images` line: kept with at least four `|`-separated pieces. */
  function ParseImageLine(line: string): (r: Option<Image>)
    ensures r.Some? <==> |Split(line, '|')| >= 4
  {
    var p := Split(line, '|');
    if |p| >= 4 then Some(Image(p[0], p[1], p[2], p[3])) else None
  }

  function FormatImageLine(img: Image): string
  {
    Join([img.repository, img.tag, img.imageId, img.size], '|')
  }

  predicate PlainImage(img: Image) {
    PlainField(img.repository) && PlainField(img.tag) && PlainField(img.imageId) && PlainField(img.size)
  }

  lemma ParseImageLineRoundTrip(img: Image)
    requires PlainImage(img)
    ensures ParseImageLine(FormatImageLine(img)) == Some(img)
    ensures '\n' !in FormatImageLine(img) && '\r' !in FormatImageLine(img)
  {
    var parts := [img.repository, img.tag, img.imageId, img.size];
    SplitJoin(parts, '|');
    JoinExcludes(parts, '|', '\n');
    JoinExcludes(parts, '|', '\r');
  }

  /** A `kubectl get pods` line: kept with at least five whitespace-separated words. */
  function ParsePodLine(line: string): (r: Option<Pod>)
    ensures r.Some? <==> |Words(line)| >= 5
  {
    var w := Words(line);
    if |w| >= 5 then Some(Pod(w[0], w[1], w[2], w[3], w[4])) else None
  }

  /** The five columns of a pod line, in order. */
  function PodWords(pod: Pod): (ws: seq<string>)
    ensures |ws| == 5
  {
    [pod.name, pod.namespace, pod.status, pod.restarts, pod.age]
  }

  predicate PlainPod(pod: Pod) {
    && |pod.name| > 0 && NoWhitespace(pod.name)
    && |pod.namespace| > 0 && NoWhitespace(pod.namespace)
    && |pod.status| > 0 && NoWhitespace(pod.status)
    && |pod.restarts| > 0 && NoWhitespace(pod.restarts)
    && |pod.age| > 0 && NoWhitespace(pod.age)
  }

  /** The padding `kubectl` may put around and between the five columns of one line:
      whitespace other than line breaks, at least one character between two columns. */
  predicate ColumnGaps(gaps: seq<string>) {
    && |gaps| == 6 && Gaps(gaps)
    && forall k :: 0 <= k < |gaps| ==> '\n' !in gaps[k] && '\r' !in gaps[k]
  }

  /** A pod whose fields are single words is read back from its line, however the
      columns are padded. */
  lemma ParsePodLineRoundTrip(pod: Pod, gaps: seq<string>)
    requires PlainPod(pod) && ColumnGaps(gaps)
    ensures ParsePodLine(Spaced(PodWords(pod), gaps)) == Some(pod)
    ensures '\n' !in Spaced(PodWords(pod), gaps) && '\r' !in Spaced(PodWords(pod), gaps)
  {
    var ws := PodWords(pod);
    WordsSpaced(ws, gaps);
    assert IsWhitespace('\n') && IsWhitespace('\r');
    SpacedExcludes(ws, gaps, '\n');
    SpacedExcludes(ws, gaps, '\r');
  }

  // ---------------------------------------------------------------------------
  // Listings

  /** `get_docker_images`. */
  function DockerImages(out: Output): seq<Image>
  {
    ParseListing(out, ParseImageLine)
  }

  /** `get_k8s_pods`. */
  function KubernetesPods(out: Output): seq<Pod>
  {
    ParseListing(out, ParsePodLine)
  }

  /** Images listed one per line are all read back, in order. */
  lemma DockerImagesRoundTrip(images: seq<Image>, stderr: string)
    requires forall i :: 0 <= i < |images| ==> PlainImage(images[i])
    ensures DockerImages(Exited(true, Unlines(seq(|images|, i requires 0 <= i < |images| => FormatImageLine(images[i]))), stderr)) == images
  {
    var lines := seq(|images|, i requires 0 <= i < |images| => FormatImageLine(images[i]));
    forall i | 0 <= i < |images|
      ensures ParseImageLine(lines[i]) == Some(images[i])
      ensures '\n' !in lines[i] && '\r' !in lines[i]
    {
      ParseImageLineRoundTrip(images[i]);
    }
    ListingRoundTrip(images, lines, ParseImageLine, stderr);
  }

  /** The lines of a pod listing, each with its own column padding. */
  function PodLines(pods: seq<Pod>, gaps: seq<seq<string>>): (lines: seq<string>)
    requires |gaps| == |pods| && forall i :: 0 <= i < |pods| ==> ColumnGaps(gaps[i])
    ensures |lines| == |pods|
  {
    seq(|pods|, i requires 0 <= i < |pods| => assert ColumnGaps(gaps[i]); Spaced(PodWords(pods[i]), gaps[i]))
  }

  /** Pods listed one per line are all read back, in order, whatever padding each line
      has between and around its columns. */
  lemma KubernetesPodsRoundTrip(pods: seq<Pod>, gaps: seq<seq<string>>, stderr: string)
    requires |gaps| == |pods|
    requires forall i :: 0 <= i < |pods| ==> PlainPod(pods[i]) && ColumnGaps(gaps[i])
    ensures KubernetesPods(Exited(true, Unlines(PodLines(pods, gaps)), stderr)) == pods
  {
    var lines := PodLines(pods, gaps);
    forall i | 0 <= i < |pods|
      ensures ParsePodLine(lines[i]) == Some(pods[i])
      ensures '\n' !in lines[i] && '\r' !in lines[i]
    {
      ParsePodLineRoundTrip(pods[i], gaps[i]);
    }
    ListingRoundTrip(pods, lines, ParsePodLine, stderr);
  }

  /** A malformed line anywhere in a listing is dropped and nothing else is lost: the
      records are those of the lines before it followed by those of the lines after it. */
  lemma MalformedLineSkipped<T>(xs: seq<string>, bad: string, ys: seq<string>, parse: string -> Option<T>)
    requires parse(bad).None?
    ensures FilterMap(xs + [bad] + ys, parse) == FilterMap(xs, parse) + FilterMap(ys, parse)
  {
    FilterMapAppend(xs + [bad], ys, parse);
    FilterMapAppend(xs, [bad], parse);
    FilterMapSingle(bad, parse);
  }

  // ---------------------------------------------------------------------------
  // Containers joined with their usage rows

  /** The usage rows keyed by container ID, inserted in order into a `HashMap`. */
  function StatsIndex(rows: seq<StatsRow>): (m: map<string, StatsRow>)
    ensures forall k :: k in m ==> m[k].id == k && m[k] in rows
  {
    if |rows| == 0 then map[]
    else
      var n := |rows| - 1;
      StatsIndex(rows[..n])[rows[n].id := rows[n]]
  }

  /** Row `i` is the last row for its ID. */
  predicate LastForId(rows: seq<StatsRow>, i: nat)
    requires i < |rows|
  {
    forall j :: i < j < |rows| ==> rows[j].id != rows[i].id
  }

  /** Exactly the IDs that have a usage row are keys of the index. */
  lemma {:induction false} StatsIndexKeys(rows: seq<StatsRow>)
    ensures StatsIndex(rows).Keys == set i | 0 <= i < |rows| :: rows[i].id
  {
    if |rows| > 0 {
      var n := |rows| - 1;
      var prefix := rows[..n];
      StatsIndexKeys(prefix);
      assert forall i :: 0 <= i < n ==> prefix[i] == rows[i];
      var ids := set i | 0 <= i < |rows| :: rows[i].id;
      var pids := set i | 0 <= i < n :: prefix[i].id;
      assert ids == pids + {rows[n].id} by {
        forall k | k in ids ensures k in pids + {rows[n].id} {
          var i :| 0 <= i < |rows| && rows[i].id == k;
          if i < n { assert prefix[i].id == k; }
        }
      }
    }
  }

  /** A later row for the same ID replaces an earlier one: each ID maps to its last row. */
  lemma {:induction false} StatsIndexLastWins(rows: seq<StatsRow>, i: nat)
    requires i < |rows| && LastForId(rows, i)
    ensures rows[i].id in StatsIndex(rows) && StatsIndex(rows)[rows[i].id] == rows[i]
    decreases |rows|
  {
    var n := |rows| - 1;
    if i < n {
      var prefix := rows[..n];
      assert rows[n].id != rows[i].id;
      assert prefix[i] == rows[i];
      assert LastForId(prefix, i) by {
        forall j | i < j < |prefix|
          ensures prefix[j].id != prefix[i].id
        {
          assert prefix[j] == rows[j];
        }
      }
      StatsIndexLastWins(prefix, i);
    }
  }

  /** The container carries the listed row's own five fields. */
  predicate KeepsRow(c: Container, row: PsRow) {
    c.id == row.id && c.image == row.image && c.name == row.name
    && c.status == row.status && c.ports == row.ports
  }

  /** The container carries the usage figures of that row. */
  predicate CarriesStats(c: Container, s: StatsRow) {
    c.cpuPercent == s.cpuPercent && c.memUsage == s.memUsage && c.memPercent == s.memPercent
    && c.netIo == s.netIo && c.blockIo == s.blockIo
  }

  /** The container carries the placeholders of one without usage figures. */
  predicate HasPlaceholders(c: Container) {
    c.cpuPercent == Zero && c.memUsage == "N/A" && c.memPercent == Zero
    && c.netIo == "N/A" && c.blockIo == "N/A"
  }

  /** No usage row has this ID. */
  predicate NoStatsFor(rows: seq<StatsRow>, id: string) {
    forall j :: 0 <= j < |rows| ==> rows[j].id != id
  }

  /** The container a listed row becomes. */
  function Joined(row: PsRow, stats: map<string, StatsRow>): Container
  {
    if row.id in stats then
      var s := stats[row.id];
      Container(row.id, row.image, row.name, row.status, row.ports,
                s.cpuPercent, s.memUsage, s.memPercent, s.netIo, s.blockIo)
    else
      Container(row.id, row.image, row.name, row.status, row.ports,
                Zero, "N/A", Zero, "N/A", "N/A")
  }

  /** The left join: one container per listed row, in the listing's order, carrying the
      row's own fields and either its usage figures or the "N/A"/zero placeholders. */
  function WithStats(basic: seq<PsRow>, stats: map<string, StatsRow>): (r: seq<Container>)
    ensures |r| == |basic|
    ensures forall i :: 0 <= i < |r| ==> KeepsRow(r[i], basic[i])
    ensures forall i :: 0 <= i < |r| && basic[i].id in stats ==> CarriesStats(r[i], stats[basic[i].id])
    ensures forall i :: 0 <= i < |r| && basic[i].id !in stats ==> HasPlaceholders(r[i])
  {
    seq(|basic|, i requires 0 <= i < |basic| => Joined(basic[i], stats))
  }

  /** `r` is the left join of the listed rows with the usage rows: one container per
      listed row, in order, with that row's fields and the figures of the last usage row
      with its ID, or the placeholders when no usage row has its ID. */
  predicate JoinsRows(r: seq<Container>, basic: seq<PsRow>, rows: seq<StatsRow>) {
    && |r| == |basic|
    && (forall i :: 0 <= i < |r| ==> KeepsRow(r[i], basic[i]))
    && (forall i, j :: 0 <= i < |r| && 0 <= j < |rows| && rows[j].id == basic[i].id && LastForId(rows, j)
          ==> CarriesStats(r[i], rows[j]))
    && (forall i :: 0 <= i < |r| && NoStatsFor(rows, basic[i].id) ==> HasPlaceholders(r[i]))
  }

  /** The join against the map built from the usage rows, stated on the rows themselves. */
  lemma JoinWithRows(basic: seq<PsRow>, rows: seq<StatsRow>)
    ensures JoinsRows(WithStats(basic, StatsIndex(rows)), basic, rows)
  {
    var idx := StatsIndex(rows);
    var r := WithStats(basic, idx);
    forall i, j | 0 <= i < |r| && 0 <= j < |rows| && rows[j].id == basic[i].id && LastForId(rows, j)
      ensures CarriesStats(r[i], rows[j])
    {
      StatsIndexLastWins(rows, j);
    }
    StatsIndexKeys(rows);
    forall i | 0 <= i < |r| && NoStatsFor(rows, basic[i].id)
      ensures HasPlaceholders(r[i])
    {
      assert basic[i].id !in idx;
    }
  }

  /** `get_docker_containers_with_stats`: nothing when `docker ps` fails. Otherwise one
      container per accepted `docker ps` line, in order, with that line's fields and the
      figures of the last accepted `docker stats` line with its ID, or the placeholders
      when there is none (in particular when `docker stats` fails). */
  function ContainersWithStats(ps: Output, stats: Output): (r: seq<Container>)
    ensures !(ps.Exited? && ps.success) ==> r == []
    ensures ps.Exited? && ps.success ==>
      JoinsRows(r, ParseListing(ps, ParsePsLine), ParseListing(stats, ParseStatsLine))
  {
    match SuccessStdout(ps)
    case None => []
    case Some(_) =>
      var basic := ParseListing(ps, ParsePsLine);
      var rows := ParseListing(stats, ParseStatsLine);
      JoinWithRows(basic, rows);
      WithStats(basic, StatsIndex(rows))
  }

  /** When `docker stats` fails, every listed container is kept, with placeholders. */
  lemma StatsUnavailableKeepsContainers(ps: Output, stats: Output)
    requires ps.Exited? && ps.success
    requires !(stats.Exited? && stats.success)
    ensures var r := ContainersWithStats(ps, stats);
            var basic := ParseListing(ps, ParsePsLine);
            && |r| == |basic|
            && forall i :: 0 <= i < |r| ==> KeepsRow(r[i], basic[i]) && HasPlaceholders(r[i])
  {
  }

  // ---------------------------------------------------------------------------
  // Network I/O column

  /** The unit suffix of each power of 1024 the source recognises. */
  function Unit(power: nat): string
    requires power <= 2
  {
    if power == 0 then "kB" else if power == 1 then "MB" else "GB"
  }

  /** `parse_value` in `parse_net_io`: the trimmed text read by `UnitAmount`. */
  function ParseAmount(s: string): NetAmount
  {
    UnitAmount(Trim(s))
  }

  /** The number in front of a `kB`, `MB` or `GB` suffix, tried in that order; anything
      else (including plain bytes, `B`) reads as zero. */
  function UnitAmount(t: string): (a: NetAmount)
    ensures a.Amount? ==> a.power <= 2 && a.number + Unit(a.power) == t
  {
    match StripSuffix(t, "kB")
    case Some(n) => Amount(n, 0)
    case None =>
      match StripSuffix(t, "MB")
      case Some(n) => Amount(n, 1)
      case None =>
        match StripSuffix(t, "GB")
        case Some(n) => Amount(n, 2)
        case None => NoAmount
  }

  /** A text with none of the three units reads as no amount. */
  lemma UnitAmountNone(t: string)
    requires forall p :: p + "kB" != t && p + "MB" != t && p + "GB" != t
    ensures UnitAmount(t) == NoAmount
  {
  }

  /** `parse_net_io`: the received and transmitted amounts of an `rx / tx` figure, each
      piece trimmed; text that does not split on `/` into exactly two pieces reads as zero
      for both. */
  function ParseNetIo(netIo: string): (r: (NetAmount, NetAmount))
    ensures |Split(netIo, '/')| != 2 ==> r == (NoAmount, NoAmount)
  {
    var p := Split(netIo, '/');
    if |p| != 2 then (NoAmount, NoAmount)
    else (ParseAmount(Trim(p[0])), ParseAmount(Trim(p[1])))
  }

  /** A number followed by its unit reads back as that amount. */
  lemma UnitAmountOf(n: string, power: nat)
    requires power <= 2
    ensures UnitAmount(n + Unit(power)) == Amount(n, power)
  {
    var t := n + Unit(power);
    StripSuffixOfAppend(n, Unit(power));
    if power > 0 {
      assert t[|t| - 2..] == Unit(power);
      assert t[|t| - 2..] != "kB";
    }
    if power == 2 {
      assert t[|t| - 2..] != "MB";
    }
  }

  /** A number followed by its unit has no whitespace at either end. */
  lemma UnitCoreTrimmed(n: string, power: nat, before: string, after: string)
    requires power <= 2 && NoWhitespace(n)
    requires AllWhitespace(before) && AllWhitespace(after)
    ensures Trim(before + (n + Unit(power)) + after) == n + Unit(power)
  {
    var core := n + Unit(power);
    var u := Unit(power);
    assert !IsWhitespace(u[0]) && !IsWhitespace(u[1]);
    assert core[|core| - 1] == u[1];
    assert core[0] == if |n| == 0 then u[0] else n[0];
    TrimPadded(before, core, after);
  }

  /** The same, with whitespace around it and trimmed twice, as `parse_net_io` does. */
  lemma ParseAmountOf(n: string, power: nat, before: string, after: string)
    requires power <= 2 && NoWhitespace(n)
    requires AllWhitespace(before) && AllWhitespace(after)
    ensures ParseAmount(Trim(before + (n + Unit(power)) + after)) == Amount(n, power)
  {
    UnitCoreTrimmed(n, power, before, after);
    UnitCoreTrimmed(n, power, "", "");
    assert "" + (n + Unit(power)) + "" == n + Unit(power);
    UnitAmountOf(n, power);
  }

  /** The figure docker prints, `<rx><unit> / <tx><unit>`, is read back exactly. */
  lemma ParseNetIoRoundTrip(rx: string, rxPower: nat, tx: string, txPower: nat)
    requires rxPower <= 2 && txPower <= 2
    requires NoWhitespace(rx) && NoWhitespace(tx) && '/' !in rx && '/' !in tx
    ensures ParseNetIo(rx + Unit(rxPower) + " / " + tx + Unit(txPower))
         == (Amount(rx, rxPower), Amount(tx, txPower))
  {
    var a := rx + Unit(rxPower) + " ";
    var b := " " + tx + Unit(txPower);
    assert rx + Unit(rxPower) + " / " + tx + Unit(txPower) == Join([a, b], '/');
    assert '/' !in a && '/' !in b;
    SplitJoin([a, b], '/');
    assert "" + (rx + Unit(rxPower)) + " " == a;
    assert " " + (tx + Unit(txPower)) + "" == b;
    ParseAmountOf(rx, rxPower, "", " ");
    ParseAmountOf(tx, txPower, " ", "");
  }

  /** A text too short to hold a unit reads as no amount. */
  lemma ShortAmount(t: string)
    requires |t| < 2
    ensures UnitAmount(t) == NoAmount
  {
  }

  /** The "N/A" placeholder of a container without usage figures reads as zero traffic. */
  lemma PlaceholderNetIoIsZero()
    ensures ParseNetIo("N/A") == (NoAmount, NoAmount)
  {
    PlaceholderPieces();
    LetterTrim('N');
    LetterTrim('A');
    ShortAmount("N");
    ShortAmount("A");
  }

  lemma PlaceholderPieces()
    ensures Split("N/A", '/') == ["N", "A"]
  {
    var p := ["N", "A"];
    assert Join(p, '/') == "N/A";
    SplitJoin(p, '/');
  }

  lemma LetterTrim(c: char)
    requires !IsWhitespace(c)
    ensures Trim([c]) == [c]
  {
    TrimPadded("", [c], "");
    assert "" + [c] + "" == [c];
  }
}
