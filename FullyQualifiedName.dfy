/** Fully qualified names: a child's name appended to its parent's FQN. */
module FullyQualifiedName {

  const Separator: char := '.'

  /** The FQN of `name` inside the entity whose FQN is `prefix`: the parent's
      FQN is kept intact as a prefix, followed by one separator and the name. */
  function Add(prefix: string, name: string): (fqn: string)
    ensures |fqn| == |prefix| + 1 + |name|
    ensures fqn[..|prefix|] == prefix
    ensures fqn[|prefix|] == Separator
    ensures fqn[|prefix| + 1..] == name
  {
    prefix + [Separator] + name
  }

  /** Two children of the same parent share an FQN only if they share a name. */
  lemma AddIsInjective(prefix: string, name1: string, name2: string)
    requires Add(prefix, name1) == Add(prefix, name2)
    ensures name1 == name2
  {
  }
}
