/** A LangChain document as the loader, the splitter and the ingester pass it
    around: its text and its metadata dictionary. */
module Documents {
  /** Metadata values are kept as strings; the key the core itself writes is
      "source", whose value is a file name. */
  type Metadata = map<string, string>

  datatype Doc = Doc(pageContent: string, metadata: Metadata)
}
