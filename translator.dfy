/** The translator client (internal/telephonist/translator). */
module Translator {
  import opened Wrappers

  /** `IClient.Translate`, and the HTTP request the Yandex client makes: texts to translations or an error. */
  type Translate = seq<string> -> Result<seq<string>, string>

  const ErrEmptyTexts := "empty texts"

  /** `yaClient.Translate`'s guard: an empty batch is refused without a request. */
  function YaTranslate(texts: seq<string>, request: Translate): (r: Result<seq<string>, string>)
    ensures |texts| == 0 ==> r == Err(ErrEmptyTexts)
    ensures |texts| > 0 ==> r == request(texts)
  {
    if |texts| == 0 then Err(ErrEmptyTexts) else request(texts)
  }
}
