/** A minimal Option type: `None` stands for a Go panic or a failed decode,
    `Some` for a value produced normally. */
module Optional {

  datatype Option<+T> = None | Some(value: T)
}
