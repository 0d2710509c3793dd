/** Values shared by every part of the model. */
module Domain {

  datatype Option<+T> = None | Some(value: T)

  /** A row or event identifier (`uuid4` in the program).  Drawing one is a parameter of the operation. */
  type Uuid = nat

  datatype Fact = Fact(entity: string, relation: string, obj: string)

  /** The text, embedding and rounding routines the program calls but whose inner workings are not
      modelled: every theorem holds for all of them. */
  datatype Text = Text(
    strip: string -> string,
    extract: string -> Option<Fact>,
    sarcastic: string -> bool,
    embed: string -> seq<real>,
    magnitude: seq<real> -> real,
    tokens: string -> set<string>,
    queryEntities: string -> seq<string>,
    lower: string -> string,
    round6: real -> real)
}
