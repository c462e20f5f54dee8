/**
 * Key-to-command dispatch of the terminal front end, on an abstract key
 * press: whether it is a press (not a release or repeat), whether the
 * modifier set is exactly Control, and the character typed.
 */
module Input {

  datatype Command = Exit | Hit | Stand | Reset | Ignore

  /** Ctrl+C exits; 'h', 's' and 'r' hit, stand and reset whatever the modifiers; anything else is ignored. */
  function KeyCommand(isPress: bool, controlOnly: bool, code: char): (c: Command)
    ensures c == Exit <==> isPress && controlOnly && code == 'c'
    ensures c == Hit <==> isPress && code == 'h'
    ensures c == Stand <==> isPress && code == 's'
    ensures c == Reset <==> isPress && code == 'r'
    ensures c == Ignore <==> !isPress || (code !in {'h', 's', 'r'} && !(controlOnly && code == 'c'))
  {
    if isPress && controlOnly && code == 'c' then Exit
    else if isPress && code == 'h' then Hit
    else if isPress && code == 's' then Stand
    else if isPress && code == 'r' then Reset
    else Ignore
  }
}
