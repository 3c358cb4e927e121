/**
 * How `run_server` turns the configuration into a Java command line, and when
 * it refuses to start.
 */
module Launch {
  import opened Text
  import opened Config

  /** The jar path the server is started from: an absolute path as given, a relative one under the server directory. */
  function ResolveJarPath(serverDir: string, jar: string): (p: string)
    ensures IsAbs(jar) ==> p == jar
    ensures !IsAbs(jar) ==> p == Join(serverDir, jar) && serverDir <= p && EndsWith(p, jar)
    ensures IsAbs(serverDir) ==> IsAbs(p)
  {
    if IsAbs(jar) then jar else Join(serverDir, jar)
  }

  function MaxHeapFlag(memory: string): string { "-Xmx" + memory + "M" }
  function MinHeapFlag(memory: string): string { "-Xms" + memory + "M" }

  /** The argument vector handed to the process: java, both heap flags in megabytes, the jar, and `nogui`. */
  function JavaCommand(memory: string, jarPath: string): (cmd: seq<string>)
  {
    ["java", MaxHeapFlag(memory), MinHeapFlag(memory), "-jar", jarPath, "nogui"]
  }

  /**
   * Reads a command line back into its memory setting and jar path, or None
   * when it is not one that `JavaCommand` builds.
   */
  function ParseJavaCommand(cmd: seq<string>): Option<(string, string)> {
    if |cmd| == 6 && cmd[0] == "java" && cmd[3] == "-jar" && cmd[5] == "nogui"
       && |cmd[1]| >= 5 && cmd[1][..4] == "-Xmx" && cmd[1][|cmd[1]| - 1] == 'M'
       && cmd[2] == MinHeapFlag(cmd[1][4..|cmd[1]| - 1])
    then Some((cmd[1][4..|cmd[1]| - 1], cmd[4]))
    else None
  }

  /** The command line determines the memory setting and the jar path it was built from. */
  lemma ParseBuildRoundTrip(memory: string, jarPath: string)
    ensures ParseJavaCommand(JavaCommand(memory, jarPath)) == Some((memory, jarPath))
  {
    var flag := MaxHeapFlag(memory);
    assert flag[..4] == "-Xmx";
    assert flag[4..|flag| - 1] == memory;
  }

  /** Every command line the parser accepts is one that `JavaCommand` builds: the same memory in both heap flags. */
  lemma BuildParseRoundTrip(cmd: seq<string>)
    requires ParseJavaCommand(cmd).Some?
    ensures JavaCommand(ParseJavaCommand(cmd).value.0, ParseJavaCommand(cmd).value.1) == cmd
  {
    var flag := cmd[1];
    var m := flag[4..|flag| - 1];
    assert flag == flag[..4] + m + [flag[|flag| - 1]];
    assert MaxHeapFlag(m) == flag;
  }

  datatype StartResult =
    | AlreadyRunning
    | JarNotFound(path: string)
    | Start(command: seq<string>)

  /**
   * `run_server`'s decision: refused while a server runs, refused when the
   * resolved jar is not among the existing paths, otherwise the command line.
   */
  function StartDecision(running: bool, s: Settings, existing: set<string>): StartResult {
    if running then AlreadyRunning
    else
      var path := ResolveJarPath(s.serverDir, s.serverJar);
      if path !in existing then JarNotFound(path)
      else Start(JavaCommand(s.serverMemory, path))
  }

  /** The three outcomes of a start request, stated as the source promises them. */
  lemma StartDecisionSpec(running: bool, s: Settings, existing: set<string>)
    ensures running ==> StartDecision(running, s, existing) == AlreadyRunning
    ensures var path := ResolveJarPath(s.serverDir, s.serverJar);
      && (!running && path !in existing ==> StartDecision(running, s, existing) == JarNotFound(path))
      && (!running && path in existing ==>
            StartDecision(running, s, existing).Start? &&
            ParseJavaCommand(StartDecision(running, s, existing).command) == Some((s.serverMemory, path)))
  {
    var path := ResolveJarPath(s.serverDir, s.serverJar);
    ParseBuildRoundTrip(s.serverMemory, path);
  }

  /** The exact vector for the shipped defaults run from `/srv/mc`. */
  lemma DefaultCommandExample()
    ensures StartDecision(false, Defaults("/srv/mc"), {"/srv/mc/server.jar"})
      == Start(["java", "-Xmx2048M", "-Xms2048M", "-jar", "/srv/mc/server.jar", "nogui"])
  {
    assert Join("/srv/mc", "server.jar") == "/srv/mc/server.jar";
    assert MaxHeapFlag("2048") == "-Xmx2048M";
    assert MinHeapFlag("2048") == "-Xms2048M";
  }
}
