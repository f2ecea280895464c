/**
 * The older `formatConsole.ts` of the desktop front end: a text is a YAML
 * block when it has a '#' header and a `key: value` line, with no
 * exclusions, and a console answer when it carries one of the console
 * markers or is a YAML block.
 */
module CalyxFormatConsole {
  import opened Text
  import opened ConsoleText

  /** `esBloqueYaml(texto)`. */
  predicate EsBloqueYaml(t: string) {
    YamlShape(t)
  }

  /** `esRespuestaDeConsola(texto)`. */
  predicate EsRespuestaDeConsola(t: string) {
    ConsoleMarker(t) || EsBloqueYaml(t)
  }

  /** `formatConsole(text)`. */
  function FormatConsole(t: string): (r: Console)
    ensures r.Yaml? <==> EsBloqueYaml(t)
    ensures r.Yaml? ==> r.input == t
    ensures r.NotConsole? <==> !EsRespuestaDeConsola(t)
    ensures r.Block? <==> ConsoleMarker(t) && !EsBloqueYaml(t)
    ensures r.Block? ==> r == ConsoleSplit(t)
  {
    if EsBloqueYaml(t) then Yaml(t)
    else if !ConsoleMarker(t) then NotConsole
    else ConsoleSplit(t)
  }

  /** A one-line console answer is all output: its input is empty. */
  lemma SingleLineConsole(t: string)
    requires '\n' !in t && ConsoleMarker(t) && !EsBloqueYaml(t)
    ensures FormatConsole(t) == Block(Title(t), "", t)
  {
    SplitNoSep(t, '\n');
  }

  /** A console answer without ':' is never taken for YAML, so it is split into a block. */
  lemma NoColonIsBlock(t: string)
    requires ':' !in t && ConsoleMarker(t)
    ensures FormatConsole(t) == ConsoleSplit(t)
  {
    NoColonNoYaml(t);
  }
}
