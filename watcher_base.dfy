/** The common base of the watching engines: src/models/StackifyitFileWatcherBase.abstract.ts. */
module WatcherBase {
  import opened Wrappers
  import opened Host

  /** Where a log line goes. */
  datatype LogSink = CustomLogger | Console

  /** One call of `options.logger(...logs)` or `console.log(...logs)`. */
  datatype LogLine = LogLine(sink: LogSink, logs: seq<string>)

  /** `log(...logs)`: nothing unless debugging; then the configured logger when there is one, else the console. */
  function LogRoute(debug: bool, hasLogger: bool, logs: seq<string>): (r: seq<LogLine>)
    ensures r == [] <==> !debug
    ensures |r| <= 1
    ensures r != [] ==> r[0].logs == logs && (r[0].sink == CustomLogger <==> hasLogger)
  {
    if !debug then [] else [LogLine(if hasLogger then CustomLogger else Console, logs)]
  }

  /**
   * The options, the debug flag and the stop signal every watching engine
   * inherits. The stop signal is a promise that `stopResolve` settles;
   * `stopPromises` records every promise created so far (true once
   * resolved), the last one being the current `stopPromise`.
   */
  class FileWatcherBase {
    const rootDirectory: string
    const useGitIgnoreFile: Option<string>
    const hasLogger: bool
    var debug: bool
    var stopPromises: seq<bool>
    /** The promise the current `stopResolve` settles; None while it is the initial no-op. */
    var stopResolveTarget: Option<nat>

    /** At most one stop promise is pending, and it is the current one, which `stopResolve` settles. */
    ghost predicate Valid()
      reads this
    {
      && |stopPromises| > 0
      && (stopResolveTarget.None? ==> stopPromises == [true])
      && (stopResolveTarget.Some? ==> stopResolveTarget.value == |stopPromises| - 1)
      && forall i :: 0 <= i < |stopPromises| - 1 ==> stopPromises[i]
    }

    /** The current stop promise is resolved. */
    ghost predicate Stopped()
      reads this
      requires Valid()
    {
      stopPromises[|stopPromises| - 1]
    }

    /** A fresh engine: its stop promise starts out resolved and its resolver is a no-op. */
    constructor (rootDirectory: string, useGitIgnoreFile: Option<string>, hasLogger: bool)
      ensures Valid() && Stopped()
      ensures this.rootDirectory == rootDirectory && this.useGitIgnoreFile == useGitIgnoreFile
      ensures this.hasLogger == hasLogger && !debug
      ensures stopPromises == [true] && stopResolveTarget == None
    {
      this.rootDirectory := rootDirectory;
      this.useGitIgnoreFile := useGitIgnoreFile;
      this.hasLogger := hasLogger;
      debug := false;
      stopPromises := [true];
      stopResolveTarget := None;
    }

    /** `pathfromRoot`: the path resolved against the root directory. */
    function PathFromRoot(lib: PathLib, myPath: string): (r: string)
      ensures r == lib.resolve(rootDirectory, myPath)
    {
      lib.resolve(rootDirectory, myPath)
    }

    /** `stopResolve()`: settles the current promise; with nothing pending it changes nothing. */
    method StopResolve()
      requires Valid()
      modifies this
      ensures Valid() && Stopped()
      ensures stopResolveTarget == old(stopResolveTarget) && debug == old(debug)
      ensures stopPromises == old(stopPromises)[|old(stopPromises)| - 1 := true]
      ensures old(Stopped()) ==> stopPromises == old(stopPromises)
    {
      if stopResolveTarget.Some? {
        stopPromises := stopPromises[stopResolveTarget.value := true];
      }
    }

    /** `createStopPromise()`: settles the previous promise, then installs a new pending one and its resolver. */
    method CreateStopPromise()
      requires Valid()
      modifies this
      ensures Valid() && !Stopped()
      ensures stopPromises == old(stopPromises)[|old(stopPromises)| - 1 := true] + [false]
      ensures stopResolveTarget == Some(|stopPromises| - 1) && debug == old(debug)
    {
      StopResolve();
      stopPromises := stopPromises + [false];
      stopResolveTarget := Some(|stopPromises| - 1);
    }

    /**
     * `waitUntilStopped()`: awaits the current stop promise; the caller
     * resumes at once exactly when that promise is already resolved.
     */
    method WaitUntilStopped() returns (awaited: nat, resumesAtOnce: bool)
      requires Valid()
      ensures awaited == |stopPromises| - 1
      ensures resumesAtOnce <==> Stopped()
    {
      awaited := |stopPromises| - 1;
      resumesAtOnce := stopPromises[awaited];
    }

    /** `log(...logs)`, with the lines it emits as its result. */
    method Log(logs: seq<string>) returns (emitted: seq<LogLine>)
      ensures emitted == LogRoute(debug, hasLogger, logs)
    {
      emitted := [];
      if debug {
        if hasLogger {
          emitted := [LogLine(CustomLogger, logs)];
        } else {
          emitted := [LogLine(Console, logs)];
        }
      }
    }
  }

  /** A watcher that was never started resumes its waiters at once; one started resumes them only after a stop. */
  method StopSignalLifecycle(rootDirectory: string) returns (neverStarted: bool, running: bool, previousSettled: bool, stopped: bool)
    ensures neverStarted && !running && previousSettled && stopped
  {
    var base := new FileWatcherBase(rootDirectory, None, false);
    var _, atOnce := base.WaitUntilStopped();
    neverStarted := atOnce;
    base.CreateStopPromise();
    var first, waiting := base.WaitUntilStopped();
    running := waiting;
    base.CreateStopPromise();
    previousSettled := base.stopPromises[first];
    base.StopResolve();
    var _, done := base.WaitUntilStopped();
    stopped := done;
    base.StopResolve();
    assert base.Stopped();
  }
}
