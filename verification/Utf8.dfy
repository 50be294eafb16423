/** The length of a text in UTF-8, the encoding the program stores its strings in. */
module Utf8 {

  function Bytes(text: string): nat {
    if text == "" then 0
    else
      Bytes(text[..|text| - 1])
      + (var c := text[|text| - 1];
         if c < '\U{0080}' then 1 else if c < '\U{0800}' then 2 else if c < '\U{10000}' then 3 else 4)
  }
}
