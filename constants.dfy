/**
 * The image instruction template of constants.ts. Its wording plays no part
 * in any property proved here, so it stands as a fixed, non-empty string.
 */
module Constants {

  /** The visual-style suffix appended to every image prompt. */
  const ImageGenInstruction: string := "<IMAGE_GEN_INSTRUCTION>"
}
