/** Building the `docker run` command line: from the dialog's form (`create_custom_container`,
    src/main.rs:1294-1376) and for the four one-key presets (src/main.rs:1378-1442). The
    command line is checked against `Decode`, an independent reading of a `docker run -d`
    argument vector as the Docker client sees it: options (`--name`, `-p`, `-e`, `-v`, each
    followed by its value) up to the first other word, which is the image, followed by the
    container's command. */
module CreateContainer {
  import opened Base
  import opened Text
  import opened Dialog

  // ---------------------------------------------------------------------------
  // What `docker run` is asked to do

  /** The options `docker run -d` receives: a container name (empty for none), the port
      mappings, environment variables and volumes in order, the image and the command. */
  datatype RunRequest = RunRequest(name: string, ports: seq<string>, env: seq<string>,
                                   volumes: seq<string>, image: string, command: seq<string>)

  const NoOptions: RunRequest := RunRequest("", [], [], [], "", [])

  /** The options that take a value. */
  predicate IsOption(a: string) {
    a == "--name" || a == "-p" || a == "-e" || a == "-v"
  }

  /** The effect of one option and its value. */
  function AddOption(acc: RunRequest, option: string, value: string): RunRequest
  {
    if option == "--name" then acc.(name := value) else AddValues(acc, option, [value])
  }

  /** The effect of a list option given several times. */
  function AddValues(acc: RunRequest, option: string, values: seq<string>): RunRequest
  {
    if option == "-p" then acc.(ports := acc.ports + values)
    else if option == "-e" then acc.(env := acc.env + values)
    else acc.(volumes := acc.volumes + values)
  }

  /** A word the Docker client reads as a flag when it stands where the image may be. */
  predicate IsFlag(a: string) {
    |a| > 0 && a[0] == '-'
  }

  /** Reads options until the image; there is no request when the arguments run out first,
      nor at a flag other than the four options (its meaning is not part of this reading). */
  function DecodeOptions(args: seq<string>, acc: RunRequest): Option<RunRequest>
    decreases |args|
  {
    if |args| == 0 then None
    else if IsOption(args[0]) then
      if |args| < 2 then None else DecodeOptions(args[2..], AddOption(acc, args[0], args[1]))
    else if IsFlag(args[0]) then None
    else Some(acc.(image := args[0], command := args[1..]))
  }

  /** How the Docker client reads `docker run -d <args>`. */
  function Decode(args: seq<string>): Option<RunRequest>
  {
    if |args| >= 2 && args[0] == "run" && args[1] == "-d" then DecodeOptions(args[2..], NoOptions)
    else None
  }

  // ---------------------------------------------------------------------------
  // The dialog's command line

  /** Each piece of a comma-separated field, trimmed; an empty field has no pieces at all
      (while a non-empty field always has at least one, possibly empty, piece). */
  function Values(field: string): (r: seq<string>)
    ensures field == "" ==> r == []
    ensures field != "" ==> |r| == |Split(field, ',')|
    ensures field != "" ==> forall i :: 0 <= i < |r| ==> r[i] == Trim(Split(field, ',')[i])
    ensures forall i :: 0 <= i < |r| ==> ',' !in r[i] && Unpadded(r[i])
  {
    if field == "" then []
    else
      var pieces := Split(field, ',');
      seq(|pieces|, i requires 0 <= i < |pieces| => TrimmedPiece(pieces[i]))
  }

  /** A piece without a comma, trimmed, has no comma and no whitespace at either end. */
  function TrimmedPiece(piece: string): (v: string)
    requires ',' !in piece
    ensures v == Trim(piece) && ',' !in v && Unpadded(v)
  {
    var a := |piece| - |TrimStart(piece)|;
    var v := Trim(piece);
    SliceExcludes(piece, a, a + |v|, ',');
    v
  }

  /** A character missing from a text is missing from every slice of it. */
  lemma SliceExcludes(s: string, a: nat, b: nat, c: char)
    requires a <= b <= |s| && c !in s
    ensures c !in s[a..b]
  {
    forall k | 0 <= k < b - a
      ensures s[a..b][k] != c
    {
      assert s[a..b][k] == s[a + k];
    }
  }

  /** `flag v1 flag v2 ...`: the option repeated before each value. */
  function Pairs(option: string, values: seq<string>): (r: seq<string>)
    ensures |r| == 2 * |values|
    ensures forall i :: 0 <= i < |values| ==> r[2 * i] == option && r[2 * i + 1] == values[i]
  {
    if |values| == 0 then []
    else
      var rest := Pairs(option, values[1..]);
      var r := [option, values[0]] + rest;
      forall i | 1 <= i < |values|
        ensures r[2 * i] == option && r[2 * i + 1] == values[i]
      {
        var j := i - 1;
        assert r[2 * i] == rest[2 * j] && r[2 * i + 1] == rest[2 * j + 1];
        assert values[1..][j] == values[i];
      }
      r
  }

  /** The arguments for one comma-separated field (`-p`, `-e` or `-v`). */
  function FieldArgs(option: string, field: string): seq<string>
  {
    Pairs(option, Values(field))
  }

  /** `--name <name>`, or nothing for an empty name. */
  function NameArgs(name: string): (r: seq<string>)
    ensures name == "" <==> r == []
  {
    if name == "" then [] else ["--name", name]
  }

  /** The command's words; an empty command gives none. */
  function CommandWords(command: string): seq<string>
  {
    if command == "" then [] else Words(command)
  }

  /** The argument vector `create_custom_container` passes to `docker`, or nothing when
      the image name is empty (nothing is run then). */
  function RunArgs(d: Form): (r: Option<seq<string>>)
    ensures r.None? <==> d.imageName == ""
    ensures r.Some? ==> |r.value| >= 3 && r.value[0] == "run" && r.value[1] == "-d"
  {
    if d.imageName == "" then None
    else
      Some(["run", "-d"] + (NameArgs(d.containerName)
           + (FieldArgs("-p", d.ports) + (FieldArgs("-e", d.envVars) + (FieldArgs("-v", d.volumes)
           + ([d.imageName] + CommandWords(d.command)))))))
  }

  /** One option and its value. */
  lemma DecodeStep(option: string, value: string, rest: seq<string>, acc: RunRequest)
    requires IsOption(option)
    ensures DecodeOptions([option, value] + rest, acc) == DecodeOptions(rest, AddOption(acc, option, value))
  {
    assert ([option, value] + rest)[2..] == rest;
  }

  /** The first word that is not an option is the image; everything after it is the command. */
  lemma DecodeImage(image: string, command: seq<string>, acc: RunRequest)
    requires !IsFlag(image)
    ensures DecodeOptions([image] + command, acc) == Some(acc.(image := image, command := command))
  {
    assert ([image] + command)[1..] == command;
  }

  /** Adding one value and then several is adding them all. */
  lemma AddValuesAppend(acc: RunRequest, option: string, value: string, values: seq<string>)
    ensures AddValues(AddValues(acc, option, [value]), option, values) == AddValues(acc, option, [value] + values)
  {
    assert acc.ports + [value] + values == acc.ports + ([value] + values);
    assert acc.env + [value] + values == acc.env + ([value] + values);
    assert acc.volumes + [value] + values == acc.volumes + ([value] + values);
  }

  /** A run of repeated list options adds its values, in order. */
  lemma {:induction false} DecodePairs(option: string, values: seq<string>, rest: seq<string>, acc: RunRequest)
    requires option == "-p" || option == "-e" || option == "-v"
    ensures DecodeOptions(Pairs(option, values) + rest, acc) == DecodeOptions(rest, AddValues(acc, option, values))
    decreases |values|
  {
    if |values| == 0 {
      assert Pairs(option, values) + rest == rest;
      assert acc.ports + values == acc.ports && acc.env + values == acc.env && acc.volumes + values == acc.volumes;
    } else {
      assert Pairs(option, values) + rest == [option, values[0]] + (Pairs(option, values[1..]) + rest);
      DecodeStep(option, values[0], Pairs(option, values[1..]) + rest, acc);
      DecodePairs(option, values[1..], rest, AddOption(acc, option, values[0]));
      AddValuesAppend(acc, option, values[0], values[1..]);
      assert [values[0]] + values[1..] == values;
    }
  }

  /** An optional `--name` sets the name. */
  lemma DecodeName(name: string, rest: seq<string>, acc: RunRequest)
    requires acc.name == ""
    ensures DecodeOptions(NameArgs(name) + rest, acc) == DecodeOptions(rest, acc.(name := name))
  {
    if name == "" {
      assert NameArgs(name) + rest == rest;
    } else {
      assert (NameArgs(name) + rest)[2..] == rest;
    }
  }

  /** The Docker client receives exactly what the form asked for: the name (if any), one
      `-p`, `-e` and `-v` per comma-separated piece, trimmed and in order, the image, and
      the command's words. This needs the image name not to read as a flag itself. */
  lemma RunArgsDecode(d: Form)
    requires d.imageName != "" && d.imageName[0] != '-'
    ensures RunArgs(d).Some?
    ensures Decode(RunArgs(d).value) == Some(RunRequest(d.containerName, Values(d.ports),
              Values(d.envVars), Values(d.volumes), d.imageName, CommandWords(d.command)))
  {
    var tail := [d.imageName] + CommandWords(d.command);
    var p := FieldArgs("-p", d.ports) + (FieldArgs("-e", d.envVars) + (FieldArgs("-v", d.volumes) + tail));
    assert RunArgs(d).value[2..] == NameArgs(d.containerName) + p;
    var a0 := NoOptions.(name := d.containerName);
    DecodeName(d.containerName, p, NoOptions);
    DecodeFields(d.ports, d.envVars, d.volumes, tail, a0);
    assert !IsFlag(d.imageName);
    DecodeImage(d.imageName, CommandWords(d.command), RunRequest(d.containerName, Values(d.ports),
      Values(d.envVars), Values(d.volumes), "", []));
  }

  /** The `-p`, `-e` and `-v` runs of a form, read into a request that has none yet. */
  lemma DecodeFields(ports: string, env: string, volumes: string, tail: seq<string>, acc: RunRequest)
    requires acc.ports == [] && acc.env == [] && acc.volumes == []
    ensures DecodeOptions(FieldArgs("-p", ports) + (FieldArgs("-e", env) + (FieldArgs("-v", volumes) + tail)), acc)
      == DecodeOptions(tail, acc.(ports := Values(ports), env := Values(env), volumes := Values(volumes)))
  {
    var v := FieldArgs("-v", volumes) + tail;
    var e := FieldArgs("-e", env) + v;
    var a1 := AddValues(acc, "-p", Values(ports));
    var a2 := AddValues(a1, "-e", Values(env));
    var a3 := AddValues(a2, "-v", Values(volumes));
    DecodePairs("-p", Values(ports), e, acc);
    DecodePairs("-e", Values(env), v, a1);
    DecodePairs("-v", Values(volumes), tail, a2);
    assert [] + Values(ports) == Values(ports) && [] + Values(env) == Values(env)
           && [] + Values(volumes) == Values(volumes);
    assert a3 == acc.(ports := Values(ports), env := Values(env), volumes := Values(volumes));
  }

  /** An empty field adds no option, but a field of one comma still yields two empty
      values, and a trailing comma an extra empty one (`-p ""`). */
  lemma EmptyPieces(field: string)
    requires field != "" && ',' !in field
    ensures Values("") == []
    ensures Values(",") == ["", ""]
    ensures Values(field + ",") == [Trim(field), ""]
  {
    assert Split(",", ',') == ["", ""] by {
      SplitJoin(["", ""], ',');
      assert Join(["", ""], ',') == ",";
    }
    assert Split(field + ",", ',') == [field, ""] by {
      SplitJoin([field, ""], ',');
      assert Join([field, ""], ',') == field + ",";
    }
    assert Trim("") == "";
  }

  /** Values typed without commas and without surrounding whitespace, separated by commas
      (with any spacing around them), come back as exactly those values. */
  lemma ValuesOfJoin(values: seq<string>)
    requires |values| >= 1 && Join(values, ',') != ""
    requires forall i :: 0 <= i < |values| ==> ',' !in values[i]
    requires forall i :: 0 <= i < |values| ==> Unpadded(values[i])
    ensures Values(Join(values, ',')) == values
  {
    var r := Values(Join(values, ','));
    SplitJoin(values, ',');
    forall i | 0 <= i < |values|
      ensures r[i] == values[i]
    {
      UnpaddedTrim(values[i]);
    }
  }

  /** Neither starts nor ends with whitespace. */
  predicate Unpadded(v: string) {
    |v| == 0 || (!IsWhitespace(v[0]) && !IsWhitespace(v[|v| - 1]))
  }

  lemma UnpaddedTrim(v: string)
    requires Unpadded(v)
    ensures Trim(v) == v
  {
    TrimPadded("", v, "");
    assert "" + v + "" == v;
  }

  // ---------------------------------------------------------------------------
  // The status line after Enter

  /** The message the dialog leaves in the status line: the missing-image error without
      running anything, else the outcome of running Docker. */
  function CreateMessage(d: Form, out: Output): (m: string)
    ensures d.imageName == "" ==> m == "Error: Image name is required!"
  {
    if d.imageName == "" then "Error: Image name is required!"
    else match out
      case Exited(true, _, _) => "Container created successfully from image: " + d.imageName
      case Exited(false, _, stderr) => "Error creating container: " + stderr
      case SpawnFailed(reason) => "Failed to execute docker command: " + reason
  }

  const SuccessPrefix: string := "Container created successfully from image: "

  /** The status line reports a created container exactly when there was an image name
      and Docker exited successfully; the name in it is the image's. */
  lemma CreateMessageReportsOutcome(d: Form, out: Output)
    ensures var m := CreateMessage(d, out);
      (|m| >= |SuccessPrefix| && m[..|SuccessPrefix|] == SuccessPrefix)
        <==> d.imageName != "" && out.Exited? && out.success
    ensures d.imageName != "" && out.Exited? && out.success ==>
              CreateMessage(d, out)[|SuccessPrefix|..] == d.imageName
  {
    var m := CreateMessage(d, out);
    if d.imageName != "" {
      match out
      case Exited(success, _, stderr) =>
        if !success {
          assert m[0] == 'E';
        }
      case SpawnFailed(reason) =>
        assert m[0] == 'F' && SuccessPrefix[0] == 'C';
    }
  }

  // ---------------------------------------------------------------------------
  // The presets

  /** The containers the `p`, `r`, `m` and `g` keys start. */
  datatype Preset = Postgres | Redis | MongoDb | Grafana

  /** The arguments a preset passes to `docker`; the container name ends with the Unix
      time of the key press, which the caller supplies. */
  function PresetArgs(p: Preset, timestamp: nat): seq<string>
  {
    var ts := NatToString(timestamp);
    match p
    case Postgres =>
      ["run", "-d", "--name", "postgres-" + ts, "-e", "POSTGRES_PASSWORD=password",
       "-p", "5432:5432", "postgres:latest"]
    case Redis =>
      ["run", "-d", "--name", "redis-" + ts, "-p", "6379:6379", "redis:latest"]
    case MongoDb =>
      ["run", "-d", "--name", "mongodb-" + ts, "-e", "MONGO_INITDB_ROOT_USERNAME=admin",
       "-e", "MONGO_INITDB_ROOT_PASSWORD=password", "-p", "27017:27017", "mongo:latest"]
    case Grafana =>
      ["run", "-d", "--name", "grafana-" + ts, "-p", "3000:3000", "grafana/grafana:latest"]
  }

  /** What each preset asks Docker for: a detached container named after the service and
      the time, publishing the service's usual port on the same host port. */
  function PresetRequest(p: Preset, timestamp: nat): RunRequest
  {
    var ts := NatToString(timestamp);
    match p
    case Postgres =>
      RunRequest("postgres-" + ts, ["5432:5432"], ["POSTGRES_PASSWORD=password"], [], "postgres:latest", [])
    case Redis =>
      RunRequest("redis-" + ts, ["6379:6379"], [], [], "redis:latest", [])
    case MongoDb =>
      RunRequest("mongodb-" + ts, ["27017:27017"],
                 ["MONGO_INITDB_ROOT_USERNAME=admin", "MONGO_INITDB_ROOT_PASSWORD=password"], [],
                 "mongo:latest", [])
    case Grafana =>
      RunRequest("grafana-" + ts, ["3000:3000"], [], [], "grafana/grafana:latest", [])
  }

  /** Each preset's command line asks Docker for exactly its request. */
  lemma PresetArgsDecode(p: Preset, timestamp: nat)
    ensures Decode(PresetArgs(p, timestamp)) == Some(PresetRequest(p, timestamp))
  {
    match p
    case Postgres => PostgresArgs(timestamp);
    case Redis => RedisArgs(timestamp);
    case MongoDb => MongoDbArgs(timestamp);
    case Grafana => GrafanaArgs(timestamp);
  }

  lemma PostgresArgs(timestamp: nat)
    ensures Decode(PresetArgs(Postgres, timestamp)) == Some(PresetRequest(Postgres, timestamp))
  {
    var args := PresetArgs(Postgres, timestamp);
    var ts := NatToString(timestamp);
    var a := NoOptions.(name := "postgres-" + ts);
    var b := a.(env := ["POSTGRES_PASSWORD=password"]);
    var c := b.(ports := ["5432:5432"]);
    var tail := ["postgres:latest"];
    assert args[2..] == ["--name", "postgres-" + ts] + (["-e", "POSTGRES_PASSWORD=password"]
                        + (["-p", "5432:5432"] + (tail + [])));
    DecodeStep("--name", "postgres-" + ts, ["-e", "POSTGRES_PASSWORD=password"] + (["-p", "5432:5432"] + (tail + [])), NoOptions);
    DecodeStep("-e", "POSTGRES_PASSWORD=password", ["-p", "5432:5432"] + (tail + []), a);
    DecodeStep("-p", "5432:5432", tail + [], b);
    DecodeImage("postgres:latest", [], c);
    assert AddOption(NoOptions, "--name", "postgres-" + ts) == a;
    assert AddOption(a, "-e", "POSTGRES_PASSWORD=password") == b;
    assert AddOption(b, "-p", "5432:5432") == c;
    assert Decode(args) == DecodeOptions(args[2..], NoOptions);
  }

  lemma RedisArgs(timestamp: nat)
    ensures Decode(PresetArgs(Redis, timestamp)) == Some(PresetRequest(Redis, timestamp))
  {
    var args := PresetArgs(Redis, timestamp);
    var ts := NatToString(timestamp);
    var a := NoOptions.(name := "redis-" + ts);
    var b := a.(ports := ["6379:6379"]);
    var tail := ["redis:latest"];
    assert args[2..] == ["--name", "redis-" + ts] + (["-p", "6379:6379"] + (tail + []));
    DecodeStep("--name", "redis-" + ts, ["-p", "6379:6379"] + (tail + []), NoOptions);
    DecodeStep("-p", "6379:6379", tail + [], a);
    DecodeImage("redis:latest", [], b);
    assert AddOption(NoOptions, "--name", "redis-" + ts) == a;
    assert AddOption(a, "-p", "6379:6379") == b;
    assert Decode(args) == DecodeOptions(args[2..], NoOptions);
  }

  lemma MongoDbArgs(timestamp: nat)
    ensures Decode(PresetArgs(MongoDb, timestamp)) == Some(PresetRequest(MongoDb, timestamp))
  {
    var args := PresetArgs(MongoDb, timestamp);
    var ts := NatToString(timestamp);
    var a := NoOptions.(name := "mongodb-" + ts);
    var b := a.(env := ["MONGO_INITDB_ROOT_USERNAME=admin"]);
    var c := b.(env := ["MONGO_INITDB_ROOT_USERNAME=admin", "MONGO_INITDB_ROOT_PASSWORD=password"]);
    var e := c.(ports := ["27017:27017"]);
    var tail := ["mongo:latest"];
    var r3 := ["-p", "27017:27017"] + (tail + []);
    var r2 := ["-e", "MONGO_INITDB_ROOT_PASSWORD=password"] + r3;
    var r1 := ["-e", "MONGO_INITDB_ROOT_USERNAME=admin"] + r2;
    assert args[2..] == ["--name", "mongodb-" + ts] + r1;
    DecodeStep("--name", "mongodb-" + ts, r1, NoOptions);
    DecodeStep("-e", "MONGO_INITDB_ROOT_USERNAME=admin", r2, a);
    DecodeStep("-e", "MONGO_INITDB_ROOT_PASSWORD=password", r3, b);
    DecodeStep("-p", "27017:27017", tail + [], c);
    DecodeImage("mongo:latest", [], e);
    assert AddOption(NoOptions, "--name", "mongodb-" + ts) == a;
    assert AddOption(a, "-e", "MONGO_INITDB_ROOT_USERNAME=admin") == b;
    assert AddOption(b, "-e", "MONGO_INITDB_ROOT_PASSWORD=password") == c;
    assert AddOption(c, "-p", "27017:27017") == e;
    assert Decode(args) == DecodeOptions(args[2..], NoOptions);
  }

  lemma GrafanaArgs(timestamp: nat)
    ensures Decode(PresetArgs(Grafana, timestamp)) == Some(PresetRequest(Grafana, timestamp))
  {
    var args := PresetArgs(Grafana, timestamp);
    var ts := NatToString(timestamp);
    var a := NoOptions.(name := "grafana-" + ts);
    var b := a.(ports := ["3000:3000"]);
    var tail := ["grafana/grafana:latest"];
    assert args[2..] == ["--name", "grafana-" + ts] + (["-p", "3000:3000"] + (tail + []));
    DecodeStep("--name", "grafana-" + ts, ["-p", "3000:3000"] + (tail + []), NoOptions);
    DecodeStep("-p", "3000:3000", tail + [], a);
    DecodeImage("grafana/grafana:latest", [], b);
    assert AddOption(NoOptions, "--name", "grafana-" + ts) == a;
    assert AddOption(a, "-p", "3000:3000") == b;
    assert Decode(args) == DecodeOptions(args[2..], NoOptions);
  }

  /** The status line each preset key leaves; the preset is started without waiting for it. */
  function PresetMessage(p: Preset): string
  {
    match p
    case Postgres => "Creating PostgreSQL container..."
    case Redis => "Creating Redis container..."
    case MongoDb => "Creating MongoDB container..."
    case Grafana => "Creating Grafana container..."
  }
}
