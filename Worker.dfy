/** One pass of the worker's `main` loop: pop a job from the right end of `message`,
    run it according to its language, and publish the result on the channel named by
    the job id. `JavaTestRunner.execute` and `JsTestRunner.execute` are instance
    methods called on the class itself, so those two branches throw, the outer handler
    catches the error and the process exits. */
module Worker {
  import opened Jobs
  import opened Sandbox
  import opened Workspace
  import opened Redis
  import CppRunner
  import PythonRunner

  /** What the `switch` does with a job of this language. */
  datatype Route = RunCpp | RunPython | CallsMissingStatic | Ignored

  function RouteOf(language: string): Route {
    if language == "C++" then RunCpp
    else if language == "Python" then RunPython
    else if language == "Java" || language == "Javascript" then CallsMissingStatic
    else Ignored
  }

  class Worker {
    /** The process is still running. */
    var alive: bool
    /** `temp_cpp` of the `CppTestRunner` and `temp_python` of the `PythonTestRunner`. */
    const cppDir: TempDir
    const pyDir: TempDir

    constructor (cpp: TempDir, py: TempDir)
      requires cpp != py
      ensures alive && cppDir == cpp && pyDir == py
    {
      alive, cppDir, pyDir := true, cpp, py;
    }

    /** One iteration, with `sb` the behaviour of the toolchain and of the program for the
        job popped: an empty pop changes nothing; a C++ or Python job is answered on its
        own channel with the runner's result; a Java or Javascript job stops the worker
        with nothing published; any other job is dropped. The JavaScript result list is
        never written. */
    method Step(store: Store, sb: Sandbox)
      requires alive && cppDir != pyDir
      modifies this, store, cppDir, pyDir
      ensures store.resultLists == old(store.resultLists)
      ensures old(store.queue) == [] ==>
        && alive && store.queue == [] && store.published == old(store.published)
        && cppDir.files == old(cppDir.files) && pyDir.files == old(pyDir.files)
      ensures old(store.queue) != [] ==>
        var job := Last(old(store.queue));
        && store.queue == old(store.queue)[..|old(store.queue)| - 1]
        && (RouteOf(job.language) == RunCpp ==>
              && alive && pyDir.files == old(pyDir.files)
              && store.published == old(store.published) + [Publication(job.jobId, CppRunner.CppResult(job, sb, old(cppDir.files)))]
              && cppDir.files == (old(cppDir.files) + CppRunner.Produced(job, sb)) - {CppRunner.SourceName(job.jobId), CppRunner.BinaryName(job.jobId)})
        && (RouteOf(job.language) == RunPython ==>
              && alive && cppDir.files == old(cppDir.files)
              && store.published == old(store.published) + [Publication(job.jobId, PythonRunner.PyResult(job, sb, PythonRunner.Shell))]
              && pyDir.files == old(pyDir.files) - {PythonRunner.ScriptName(job.jobId)})
        && (RouteOf(job.language) == CallsMissingStatic ==>
              && !alive && store.published == old(store.published)
              && cppDir.files == old(cppDir.files) && pyDir.files == old(pyDir.files))
        && (RouteOf(job.language) == Ignored ==>
              && alive && store.published == old(store.published)
              && cppDir.files == old(cppDir.files) && pyDir.files == old(pyDir.files))
    {
      var message := store.PopJob();
      if message.None? {
        return;
      }
      var job := message.value;
      match RouteOf(job.language)
      case RunCpp =>
        var cppResult := CppRunner.Execute(job, sb, cppDir);
        store.Publish(job.jobId, cppResult);
      case RunPython =>
        var pyResult := PythonRunner.Execute(job, sb, PythonRunner.Shell, pyDir);
        store.Publish(job.jobId, pyResult);
      case CallsMissingStatic =>
        alive := false;
      case Ignored =>
    }
  }
}
