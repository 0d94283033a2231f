/**
 * The comment block every generated file carries, by which the cleanup
 * scripts recognise generated files.
 */
module GeneratedHeader {
  import opened Utf8

  /** The header text. */
  const GENERATED_HEADER := "/**" + HeaderBody()

  /** The header after its opening slash and two asterisks. */
  function HeaderBody(): string {
    "\n * Some of the scripts creating generated scripts are\n * dependant on 3rd party libraries.\n *\n * This file was dynamically generated via script.\n * Generated files should NOT be edited by hand.\n * If you need to change something,\n * edit the script that created this file\n * or the file that it generated this script from.\n * A comment showing the path to said script should\n * be just below this one.\n * The generation scripts in general are located inside of\n * {project}/config/generate/*.\n *\n * Any UTF-8 file that contains this comment block,\n * character by character, will be considered a generated file.\n * Files with these exact comments will be deleted if you use:\n * npm run clean:generated\n */"
  }

  /** The header as the UTF-8 bytes the cleanup scripts compare file contents with. */
  const GENERATED_HEADER_BUFFER := Encode(GENERATED_HEADER)

  /** The header's bytes are not empty, so no empty file is taken for a generated one. */
  lemma HeaderBufferNonEmpty()
    ensures |GENERATED_HEADER_BUFFER| > 0
  {
    OpeningLength();
  }

  // The opening "/**" alone gives the length; kept apart from the encoding.
  lemma OpeningLength()
    ensures |GENERATED_HEADER| >= 3
  {
  }
}
