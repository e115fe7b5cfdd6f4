/** The shared declarations of the application (types.ts). */
module Types {
  import opened Wrappers

  /** Token counts reported for one generation. */
  datatype TokenUsage = TokenUsage(promptTokens: int, responseTokens: int, totalTokens: int)

  /** `GeneratedContent.type`: 'TEXT' | 'IMAGE' | 'CHAT'. */
  datatype ContentType = TextContent | ImageContent | ChatContent

  /** A generation result shown by the result card. */
  datatype GeneratedContent = GeneratedContent(kind: ContentType, content: string, tokenUsage: Option<TokenUsage>)

  /** `SavedItem.type`: 'TEXT' | 'IMAGE'. */
  datatype ItemType = TextItem | ImageItem

  /** An archived output; `timestamp` is the `Date.now()` value at saving time. */
  datatype SavedItem = SavedItem(id: string, kind: ItemType, content: string, timestamp: nat, title: string)

  /** What the save action supplies: a saved item without its id and timestamp. */
  datatype SavedItemDraft = SavedItemDraft(kind: ItemType, content: string, title: string)

  /** The request lifecycle: IDLE, LOADING, SUCCESS, ERROR. */
  datatype LoadingState = Idle | Loading | Success | Failure

  /** The top-level tabs: TEXT, IMAGE, CHAT, SAVED. */
  datatype GenerationMode = TextMode | ImageMode | ChatMode | SavedMode

  /** The two image operations: ENHANCE an uploaded photo or compose an ADVERTISEMENT. */
  datatype VisualGenerationType = Enhance | Advertisement

  /** '1:1' | '16:9' | '9:16' | '4:3' | '3:4'. */
  datatype AspectRatio = Ratio1x1 | Ratio16x9 | Ratio9x16 | Ratio4x3 | Ratio3x4

  /** 'friendly' | 'funny' | 'informative' | 'product_focused' | 'sale'. */
  datatype TextTone = Friendly | Funny | Informative | ProductFocused | Sale
}
