/** toml_splice: taking a managed block out of a client's TOML text, and putting one in. */
module TomlSplice {
  import opened Wrappers
  import opened TextLines

  /** The TOML parser: whether a text parses, and whether it then has an MCP entry under a key. */
  datatype Toml = Toml(valid: string -> bool, has: (string, string) -> bool)

  datatype SpliceError = InvalidToml | NoActualEntry | BadMarkers | InvalidOutside | Unmarked

  datatype Spliced = Spliced(remaining: string, block: Option<string>)

  function EndsLine(text: string): bool {
    text == "" || text[|text| - 1] == '\n'
  }

  /** Past one line ending, if there is one. */
  function SkipEnding(text: string, stop: nat): nat
    requires stop <= |text|
  {
    if "\r\n" <= text[stop..] then stop + 2 else if "\n" <= text[stop..] then stop + 1 else stop
  }

  /** Where the only block of the text starts and stops; None when the markers are not one proper pair. */
  function BlockRange(text: string, begin: string, end: string): Option<(nat, nat)>
    requires begin != "" && end != ""
  {
    var begins, ends := Matches(text, begin, 0), Matches(text, end, 0);
    if |begins| != 1 || |ends| != 1 || begins[0] >= ends[0] then None
    else
      var start, stop := begins[0], ends[0] + |end|;
      if stop > |text| || start > stop then None
      else if !EndsLine(text[..start]) || (stop != |text| && text[stop] !in "\n\r") then None
      else Some((start, SkipEnding(text, stop)))
  }

  function Splice(text: string, begin: string, end: string, key: string, toml: Toml): Result<Spliced, SpliceError>
    requires begin != "" && end != ""
  {
    var begins, ends := Matches(text, begin, 0), Matches(text, end, 0);
    if !toml.valid(text) then Failure(InvalidToml)
    else if begins != [] && !toml.has(text, key) then Failure(NoActualEntry)
    else
      var range := BlockRange(text, begin, end);
      if (begins != [] || ends != []) && range.None? then Failure(BadMarkers)
      else
        var spliced :=
          if begins == [] && ends == [] then Spliced(text, None)
          else Spliced(text[..range.value.0] + text[range.value.1..], Some(text[range.value.0..range.value.1]));
        if !toml.valid(spliced.remaining) then Failure(InvalidOutside)
        else if toml.has(spliced.remaining, key) then Failure(Unmarked)
        else Success(spliced)
  }

  /** The block the client writes and records: markers around the entry's lines. */
  function Canonical(begin: string, entry: string, end: string): string {
    begin + "\n" + entry + end + "\n"
  }

  /** write_clients and write_plugin: the block goes to the end, on a line of its own. */
  function Appended(text: string, block: string): string {
    (if EndsLine(text) then text else text + "\n") + block
  }
}
