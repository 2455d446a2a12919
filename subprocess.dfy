/** The outcome of `subprocess.run(..., capture_output=True, text=True)`. */
module Subprocess {

  /** `NotFound` is the `FileNotFoundError` raised when the executable cannot
      be started; otherwise the process ran and exited with `code`. */
  datatype Proc = NotFound | Exited(code: int, stdout: string, stderr: string)
}
