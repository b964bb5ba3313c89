/**
 * The type registry (src/recognizer/types.rs): a map from a type name to the
 * regex fragment a placeholder of that type captures with.
 */
module PatternTypes {

  type Registry = map<string, string>

  const STRING_NAME: string := "string"
  const STRING_PATTERN: string := "[^/.]+"
  const NUMBER_NAME: string := "number"
  const NUMBER_PATTERN: string := "[0-9]+"

  /** The registry a route gets when it is registered without one. */
  const DefaultTypes: Registry := map[STRING_NAME := STRING_PATTERN, NUMBER_NAME := NUMBER_PATTERN]
}
