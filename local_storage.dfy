/** The browser's `localStorage` as the two history services see it: a map from keys
    to stored texts. A text is modelled by what `JSON.parse` makes of it: a record of
    the service's shape, the empty string, or text that does not parse. */
module LocalStorage {

  datatype Entry<T> =
    | Record(value: T)
    | EmptyText
    | Malformed

  /** `localStorage.getItem(key)` is falsy: the key is absent or holds "". */
  predicate Falsy<T>(storage: map<string, Entry<T>>, key: string) {
    key !in storage || storage[key].EmptyText?
  }
}
