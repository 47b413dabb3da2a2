/** The optional value used for the source's `number | null` and `Player | null` results. */
module Options {

  datatype Option<+T> = None | Some(value: T) {

    /** The wrapped value, or `default` when there is none (the source's `??`). */
    function GetOr(default: T): T {
      if Some? then value else default
    }
  }
}
