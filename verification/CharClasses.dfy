/** Character classes of the C locale, as isspace, ispunct and tolower see them. */
module CharClasses {
  predicate IsSpace(c: char) {
    c == ' ' || '\t' <= c <= '\r'
  }

  predicate IsPunct(c: char) {
    '!' <= c <= '/' || ':' <= c <= '@' || '[' <= c <= '`' || '{' <= c <= '~'
  }

  function ToLower(c: char): char {
    if 'A' <= c <= 'Z' then (c as int + 32) as char else c
  }

  /** The classes as the C standard describes them: the six standard white-space characters; every
      printing character that is neither a space nor a letter nor a digit; and the small letter at the
      same place in the alphabet. */
  lemma StandardClasses(c: char)
    ensures IsSpace(c) <==> c in {' ', '\t', '\n', '\r', '\U{0B}', '\U{0C}'}
    ensures IsPunct(c) <==>
              ' ' < c <= '~' && !('0' <= c <= '9') && !('a' <= c <= 'z') && !('A' <= c <= 'Z')
    ensures 'A' <= c <= 'Z' ==> 'a' <= ToLower(c) <= 'z' && ToLower(c) as int - 'a' as int == c as int - 'A' as int
    ensures !('A' <= c <= 'Z') ==> ToLower(c) == c
  {
  }
}
