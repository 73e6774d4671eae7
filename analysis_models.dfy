/** The request bodies of the analysis service (the pydantic models of
    `ai-service/main.py`), shared by its analysers. */
module AnalysisModels {
  datatype Email = Email(id: string, sender: string, subject: string, date: string, snippet: string)

  /** `count` is whatever the caller sent; it need not be `|emails|`. */
  datatype SenderGroup = SenderGroup(sender: string, count: int, emails: seq<Email>, category: string)
}
