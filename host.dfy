/** Values the browser host hands to the helpers. */
module Host {
  import opened Wrappers

  /** A browser tab as the helpers see it: an optional id and an optional URL. */
  datatype Tab = Tab(id: Option<int>, url: Option<string>)

  /**
   * A callback function handed to a registry. JavaScript compares
   * functions by reference, so a callback is modelled by its identity.
   */
  type Callback = nat
}
