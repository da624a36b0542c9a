/** The keyword record the backend returns and the word cloud renders:
    `{"word": ..., "weight": ...}` on the wire. */
module Keywords {

  datatype Keyword = Keyword(word: string, weight: real)
}
