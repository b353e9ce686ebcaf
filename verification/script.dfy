/**
 Script elements as the lottery code pushes them through its script builder.
 Opcodes are abstract: what they do when a script runs is the ledger's business.
 */
module Script {
  import opened JavaInt

  /** The opcodes the lottery templates use. */
  datatype Opcode =
    | If
    | Else
    | EndIf
    | CheckLockTimeVerify
    | Drop
    | Beacon
    | Equal
    | FlexiHash

  /**
   One script chunk: an opcode (`op`), a number push (`number`), a data push
   (`data`) or a small-number push (`smallNum`).
   */
  datatype Op =
    | Code(code: Opcode)
    | Num(n: int)
    | Data(bytes: seq<byte>)
    | SmallNum(k: nat)
}
