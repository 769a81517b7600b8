/** What one configuration line can mean to the two readers of the file. A line
    has one reading inside a block and another outside, because both readers pick
    the grammar by their `in_block` flag. */
module Lines {

  /** `close_like` / `split_rule_line`: a line read inside a block. */
  datatype Inner =
    | Close
    | Entry(name: string, cpus: string, closed: bool)
    | Bad(closes: bool)

  /** `OuterLine`: a line read outside every block. */
  datatype Outer =
    | Single(pkg: string, thread: string, cpus: string, open: bool)
    | Rule(pkg: string, cpus: string, open: bool)
    | BareOpen(pkg: string)
    | Pending(pkg: string)
    | Junk

  datatype Line = Skip | Text(inner: Inner, outer: Outer)

  /** The splitters never return an empty thread name. */
  predicate Named(c: Line)
  {
    c.Text? ==>
      && (c.inner.Entry? ==> c.inner.name != "")
      && (c.outer.Single? ==> c.outer.thread != "")
  }
}
