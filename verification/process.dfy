/** The outcome of running an external program and collecting its output,
    as `std::process::Command::output` reports it. Output bytes are taken
    as already decoded text. */
module Process {
  datatype Output =
    | SpawnFailed(message: string)
    | Exited(success: bool, stdout: string, stderr: string)
}
