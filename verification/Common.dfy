/** Types shared by the models of the DRM core. */
module Common {
  /** A pointer that may be NULL. */
  datatype Option<+T> = None | Some(value: T)

  /** The error numbers the modelled functions return. */
  const ENOENT: int := -2
  const ENOMEM: int := -12
  const EBUSY: int := -16
  const EINVAL: int := -22
  const EACCES: int := -13
  const EDEADLK: int := -35
  const ENOTSUPP: int := -524
}
