/** What the components hand one another: error codes and provisioning requests. */
module Interface {
  import opened Bytes

  const ENOENT: int := -2
  const EIO: int := -5
  const EAGAIN: int := -11
  const ENOMEM: int := -12
  const EBUSY: int := -16
  const ENODEV: int := -19
  const EINVAL: int := -22

  /** A device to provision and the recipe to configure it with, RECIPE_NONE to let the table decide. */
  datatype Request = Request(uuid: Uuid, recipe: nat)
}
