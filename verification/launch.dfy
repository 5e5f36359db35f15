/** Choosing and spawning the process that runs a game (`launch_game`). */
module Launch {
  import opened Values
  import opened Games

  /** What gets spawned: a program path on its own, or an emulator given a ROM. */
  datatype Command = Program(path: string) | EmulatorRom(emulator: string, rom: string)

  /** The argument vector handed to the operating system. */
  function Argv(c: Command): seq<string> {
    match c
    case Program(path) => [path]
    case EmulatorRom(emulator, rom) => [emulator, rom]
  }

  /**
   * Target selection: a non-empty `path` wins whatever `emulator` and `rom`
   * hold; otherwise `emulator` with `rom`, only when both are non-empty;
   * otherwise nothing.
   */
  function SelectTarget(game: Record): (t: Option<Command>)
    ensures Truthy(Get(game, "path")) ==> t == Some(Program(game["path"]))
    ensures !Truthy(Get(game, "path")) ==>
      (t.Some? <==> Truthy(Get(game, "emulator")) && Truthy(Get(game, "rom")))
    ensures !Truthy(Get(game, "path")) && t.Some? ==> t.value == EmulatorRom(game["emulator"], game["rom"])
    ensures t.Some? ==> forall a :: a in Argv(t.value) ==> a != "" && a in game.Values
  {
    var path, emu, rom := Get(game, "path"), Get(game, "emulator"), Get(game, "rom");
    if Truthy(path) then Some(Program(path.value))
    else if Truthy(emu) && Truthy(rom) then Some(EmulatorRom(emu.value, rom.value))
    else None
  }

  /** Selection reads only the three launch fields of the record. */
  lemma SelectionReadsLaunchFields(a: Record, b: Record)
    requires forall key :: key in {"path", "emulator", "rom"} ==> Get(a, key) == Get(b, key)
    ensures SelectTarget(a) == SelectTarget(b)
  {
  }

  /** Why a launch raised, with the lines printed before it did. */
  datatype Failure = KeyError(key: string) | SpawnFailed(message: string, log: seq<string>)

  /**
   * What a launch did: the console lines it printed, the command it tried to
   * spawn (at most one), and whether a process was started.
   */
  datatype Report = Report(log: seq<string>, attempted: Option<Command>, started: bool)

  function StartLine(name: string): string {
    "Lanzando " + name + "..."
  }

  /**
   * `launch_game` of launcher.py. `spawnError` is the operating system's
   * answer to the spawn: `None` when the process starts, `Some(message)`
   * when spawning raises. A spawn failure is caught and logged; only a
   * record without `name` raises (before anything is spawned).
   */
  function LaunchGame(game: Record, spawnError: Option<string>): (r: Result<Report, Failure>)
    ensures r.Err? <==> "name" !in game
    ensures r.Err? ==> r.error == KeyError("name")
    ensures r.Ok? ==> r.value.attempted == SelectTarget(game)
    ensures r.Ok? ==> (r.value.started <==> r.value.attempted.Some? && spawnError.None?)
    ensures r.Ok? ==> |r.value.log| >= 1 && r.value.log[0] == StartLine(game["name"])
    ensures r.Ok? ==> (|r.value.log| == 1 <==> r.value.started)
    ensures r.Ok? ==> |r.value.log| <= 2
    ensures r.Ok? && r.value.attempted.None? ==>
      r.value.log == [StartLine(game["name"]), "No se encontró ruta ni emulador/ROM para " + game["name"]]
    ensures r.Ok? && r.value.attempted.Some? && spawnError.Some? ==>
      r.value.log == [StartLine(game["name"]), "Error al lanzar " + game["name"] + ": " + spawnError.value]
  {
    if "name" !in game then Err(KeyError("name"))
    else
      var name := game["name"];
      match SelectTarget(game)
      case Some(c) =>
        if spawnError.None? then Ok(Report([StartLine(name)], Some(c), true))
        else Ok(Report([StartLine(name), "Error al lanzar " + name + ": " + spawnError.value], Some(c), false))
      case None =>
        Ok(Report([StartLine(name), "No se encontró ruta ni emulador/ROM para " + name], None, false))
  }

  /**
   * `launch_game` of the first launcher window, which has no exception
   * handler: a spawn failure propagates to the caller.
   */
  function LaunchGameUnguarded(game: Record, spawnError: Option<string>): (r: Result<Report, Failure>)
    ensures r.Err? <==> "name" !in game || (SelectTarget(game).Some? && spawnError.Some?)
    ensures r.Err? && "name" !in game ==> r.error == KeyError("name")
    ensures r.Err? && "name" in game ==> r.error == SpawnFailed(spawnError.value, [StartLine(game["name"])])
    ensures r.Ok? ==> r.value.attempted == SelectTarget(game)
    ensures r.Ok? ==> (r.value.started <==> r.value.attempted.Some?)
    ensures r.Ok? ==> |r.value.log| >= 1 && r.value.log[0] == StartLine(game["name"])
    ensures r.Ok? ==> (|r.value.log| == 1 <==> r.value.started)
    ensures r.Ok? && !r.value.started ==>
      r.value.log == [StartLine(game["name"]), "No se encontró una ruta o emulador/rom para " + game["name"]]
  {
    if "name" !in game then Err(KeyError("name"))
    else
      var name := game["name"];
      match SelectTarget(game)
      case Some(c) =>
        if spawnError.None? then Ok(Report([StartLine(name)], Some(c), true))
        else Err(SpawnFailed(spawnError.value, [StartLine(name)]))
      case None =>
        Ok(Report([StartLine(name), "No se encontró una ruta o emulador/rom para " + name], None, false))
  }

  /**
   * The two launchers pick the same target and start the same process; they
   * differ only in the wording of the "nothing to launch" line and in what
   * happens when spawning fails.
   */
  lemma LaunchersAgree(game: Record, spawnError: Option<string>)
    requires "name" in game
    requires SelectTarget(game).None? || spawnError.None?
    ensures LaunchGame(game, spawnError).Ok? && LaunchGameUnguarded(game, spawnError).Ok?
    ensures LaunchGame(game, spawnError).value.attempted == LaunchGameUnguarded(game, spawnError).value.attempted
    ensures LaunchGame(game, spawnError).value.started == LaunchGameUnguarded(game, spawnError).value.started
  {
  }
}
