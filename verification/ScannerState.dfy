/** What the scanner keeps between two texts (core/sysload.conf.l). */
module ScannerState {

  const MAX_INCL_DEPTH: nat := 20

  /** Start conditions. */
  datatype Mode = Initial | StrMode | UriMode | UriRestMode | UiMode | IncludeMode | ModMode

  /** The start condition, and the rest of every file that is suspended by an include
      statement, the outermost first. Neither is reset before the next text. */
  datatype Flex = Flex(mode: Mode, stack: seq<string>)

  const RESET: Flex := Flex(Initial, [])
}
