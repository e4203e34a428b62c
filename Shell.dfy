/** The shell-style tokeniser and joiner (Python's `shlex.split` and
    `shlex.join`) are library code outside this model: they are parameters,
    and every property of the model is stated relative to them. */
module Shell {
  import opened Outcome

  /** `shlex.split`: `None` stands for the `ValueError` it raises on an
      unbalanced quote or a trailing escape. */
  type Splitter = string -> Option<seq<string>>

  /** `shlex.join` */
  type Joiner = seq<string> -> string
}
