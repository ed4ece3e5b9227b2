/** Optional values: the model's counterpart of `std::optional`. */
module Wrappers {

  /** Either nothing, or a value. A `MusicInformation` is "truthy" exactly when
      its tempo is `Some`. */
  datatype Option<+T> = None | Some(value: T)
}
