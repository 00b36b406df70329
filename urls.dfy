/** What the WHATWG URL parser (`new URL(s)`) yields for a string, as far as
    the program looks at it: either a parse failure (the constructor throws) or
    the URL's `hostname` and `pathname`. */
module Urls {
  datatype ParsedUrl = ParsedUrl(hostname: string, pathname: string)

  datatype UrlParse = Parsed(url: ParsedUrl) | Unparsable
}
