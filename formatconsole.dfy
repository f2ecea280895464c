/**
 * The `formatConsole.ts` of the web front end: the YAML test of the older
 * version, except that a text holding a Markdown table or a nutrition word
 * is never YAML, so the nutrition answers of the chat are not drawn as
 * YAML blocks.
 */
module FormatConsole {
  import opened Text
  import opened ConsoleText
  import CalyxFormatConsole

  /** The nutrition words; a text holding one of them, in lower case, is not YAML. */
  const PalabrasNutricion: seq<string> := [
    "aporte nutricional", "información nutricional", "valor nutricional", "calorías", "proteínas",
    "grasas", "carbohidratos", "fibra", "sodio", "hierro", "calcio"
  ]

  /** A Markdown table: a '|' somewhere and one at the start of a line after the first. */
  predicate IsTable(t: string) {
    Contains(t, "|") && Contains(t, "\n|")
  }

  /** `palabrasNutricion.some(palabra => texto.toLowerCase().includes(palabra))`. */
  predicate HasNutritionWord(t: string) {
    AnyIn(Lower(t), PalabrasNutricion)
  }

  /** `esBloqueYaml(texto)`. */
  predicate EsBloqueYaml(t: string) {
    !IsTable(t) && !HasNutritionWord(t) && YamlShape(t)
  }

  /** `esRespuestaDeConsola(texto)`. */
  predicate EsRespuestaDeConsola(t: string) {
    ConsoleMarker(t) || EsBloqueYaml(t)
  }

  /** `formatConsole(text)`. */
  function FormatConsole(t: string): (r: Console)
    ensures r.Yaml? <==> EsBloqueYaml(t)
    ensures r.Yaml? ==> r.input == t
    ensures r.NotConsole? <==> !EsRespuestaDeConsola(t)
    ensures r.Block? <==> ConsoleMarker(t) && !EsBloqueYaml(t)
    ensures r.Block? ==> r == ConsoleSplit(t)
  {
    if EsBloqueYaml(t) then Yaml(t)
    else if !ConsoleMarker(t) then NotConsole
    else ConsoleSplit(t)
  }

  /** A line that starts with '|' makes the text a table, and a table is never YAML. */
  lemma TableNeverYaml(t: string, i: nat)
    requires i + 1 < |t| && t[i] == '\n' && t[i + 1] == '|'
    ensures IsTable(t) && !EsBloqueYaml(t)
    ensures FormatConsole(t) != Yaml(t)
  {
    assert t[i + 1..][..1] == "|";
    ContainsAt(t, "|", i + 1);
    assert t[i..][..2] == "\n|";
    ContainsAt(t, "\n|", i);
  }

  /** A text holding a nutrition word, in any case, is never YAML. */
  lemma NutritionNeverYaml(t: string, k: nat)
    requires k < |PalabrasNutricion| && Contains(Lower(t), PalabrasNutricion[k])
    ensures HasNutritionWord(t) && !EsBloqueYaml(t)
  {
    AnyInIff(Lower(t), PalabrasNutricion);
  }

  /** Without a table or a nutrition word, the text is YAML exactly when the older version says so. */
  lemma SameYamlOtherwise(t: string)
    requires !IsTable(t) && !HasNutritionWord(t)
    ensures EsBloqueYaml(t) <==> CalyxFormatConsole.EsBloqueYaml(t)
    ensures FormatConsole(t) == CalyxFormatConsole.FormatConsole(t)
  {
  }

  /** The exclusions only ever take YAML away: what is YAML here is YAML in the older version. */
  lemma YamlNarrower(t: string)
    ensures EsBloqueYaml(t) ==> CalyxFormatConsole.EsBloqueYaml(t)
    ensures EsRespuestaDeConsola(t) ==> CalyxFormatConsole.EsRespuestaDeConsola(t)
  {
  }

  /**
   * A YAML-shaped table with a console marker is drawn as YAML by the older
   * version and split into a console block here.
   */
  lemma TableVersionsDiffer(t: string, i: nat)
    requires i + 1 < |t| && t[i] == '\n' && t[i + 1] == '|'
    requires YamlShape(t) && ConsoleMarker(t)
    ensures CalyxFormatConsole.FormatConsole(t) == Yaml(t)
    ensures FormatConsole(t) == ConsoleSplit(t)
  {
    TableNeverYaml(t, i);
  }

  /** "#a\n|b:c", a header, a table line and a colon, is YAML only for the older version. */
  lemma TableExample(t: string)
    requires t == "#a\n|b:c"
    ensures CalyxFormatConsole.EsBloqueYaml(t) && !EsBloqueYaml(t)
  {
    assert t[0] == '#' && t[1] == 'a' && t[2] == '\n' && t[3] == '|' && t[5] == ':' && t[6] == 'c';
    YamlShapeFrom(t, 0, 5);
    TableNeverYaml(t, 2);
  }
}
