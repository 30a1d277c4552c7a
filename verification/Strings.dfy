module Strings {

  // A string is a sequence of characters, given by their code points.
  type Str = seq<nat>
}
