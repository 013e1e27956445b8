/** Types that several modules share. */
module Common {

  type Byte = x: int | 0 <= x < 256

  datatype Option<+T> = None | Some(value: T)

  datatype Errno = EINVAL | ENOSPC | EFBIG | EIO | ENOMEM | EBUSY

  datatype Result<+T> = Ok(value: T) | Err(error: Errno)
}
