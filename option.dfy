/** An optional value: a Blender pointer property that may hold nothing. */
module Optional {

  datatype Option<+T> = None | Some(value: T)
}
