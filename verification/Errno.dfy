/** Error numbers.  Only their being distinct and positive matters. */
module Errno {
  const ENOENT: int := 2
  const EIO: int := 5
  const EBADF: int := 9
  const ENOMEM: int := 12
  const EACCES: int := 13
  const EFAULT: int := 14
  const EEXIST: int := 17
  const ENODEV: int := 19
  const EFBIG: int := 27
  const ENOSPC: int := 28
  const ENOSYS: int := 38
}
