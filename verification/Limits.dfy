/** The sizes and error codes of finsh.h. */
module Limits {
  const NULL: int := -1

  const NAME_MAX: nat := 16
  const NODE_MAX: nat := 16
  const STRING_MAX: nat := 128
  const VARIABLE_MAX: nat := 8
  const STACK_MAX: nat := 64
  const TEXT_MAX: nat := 128

  const ERROR_OK: nat := 0
  const ERROR_INVALID_TOKEN: nat := 1
  const ERROR_EXPECT_TYPE: nat := 2
  const ERROR_UNKNOWN_TYPE: nat := 3
  const ERROR_VARIABLE_EXIST: nat := 4
  const ERROR_EXPECT_OPERATOR: nat := 5
  const ERROR_MEMORY_FULL: nat := 6
  const ERROR_UNKNOWN_NODE: nat := 8
  const ERROR_EXPECT_CHAR: nat := 9
  const ERROR_UNEXPECT_END: nat := 10
  const ERROR_UNKNOWN_TOKEN: nat := 11
  const ERROR_UNKNOWN_SYMBOL: nat := 13
  const ERROR_NULL_NODE: nat := 14
}
