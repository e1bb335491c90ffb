// What the program learns from one external process run to completion
// (`std::process::Command::output`): either the process could not be spawned,
// or it exited with a status and captured stdout/stderr (already decoded).
module Process {
  import opened Util

  datatype Run =
    | SpawnFailed(reason: string)
    | Exited(success: bool, code: Option<int>, stdout: string, stderr: string)
}
