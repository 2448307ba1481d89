/** The rules the sentinel knows, in the order it lists them. */
module RuleCodes {

  /** A database row may carry a code the program does not know. */
  datatype Code = P001 | S004 | S014 | L001 | L002 | L003 | E001 | E005 | E008 | E008c | M001 | Unknown(name: string)

  const ALL_RULES: seq<Code> := [P001, S004, S014, L001, L002, L003, E001, E005, E008, E008c, M001]
}
