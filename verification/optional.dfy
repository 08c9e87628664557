/** A value that may be missing: an environment variable that is unset, a
    probe that found no running container, a webhook field that is absent. */
module Optional {

  datatype Option<T> = None | Some(value: T) {

    /** The value if there is one, else `fallback`: the shape of
        `os.environ.get(key, fallback)` and of `x or fallback`. */
    function Or(fallback: T): T {
      if Some? then value else fallback
    }
  }
}
