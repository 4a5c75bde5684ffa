/**
 * `growler.py`: the original router, `parse(line, log_type)`, which passes
 * through the lines of a log worth announcing and `None` for the rest.
 */
module Growler {
  import opened Text
  import opened Events

  /**
   * `parse(line, log_type)`. The IP-address regular expression of the
   * `apache` branch is the parameter `ipSearch` (the matched text, or `None`
   * when nothing matches, in which case `.group()` raises).
   */
  function Parse(line: string, logType: Option<string>, ipSearch: string -> Option<string>): (r: Result<Option<string>>)
    ensures logType != Some("apache") ==> r.Ok? && (r.value.Some? ==> r.value.value == line)
    ensures logType == Some("secure") ==>
      (r.value.Some? <==> Contains(line, "sshd[") || (Contains(line, "sudo") && Contains(line, "failed")))
    ensures logType == Some("ftp") ==> (r.value.Some? <==> Contains(line, "ftpd["))
    ensures logType !in {Some("secure"), Some("apache"), Some("ftp")} ==> r == Ok(Some(line))
    ensures logType == Some("apache") && !Contains(line, "GET") ==> r == Ok(None)
    ensures logType == Some("apache") && Contains(line, "GET") ==>
      (r.Err? <==> ipSearch(line).None?) && (r.Ok? ==> r.value == ipSearch(line))
  {
    if logType == Some("secure") then
      if Contains(line, "sshd[") then Ok(Some(line))
      else if Contains(line, "sudo") && Contains(line, "failed") then Ok(Some(line))
      else Ok(None)
    else if logType == Some("apache") then
      if Contains(line, "GET") then
        match ipSearch(line)
        case None => Err(AttributeError)
        case Some(ip) => Ok(Some(ip))
      else Ok(None)
    else if logType == Some("ftp") then
      if Contains(line, "ftpd[") then Ok(Some(line)) else Ok(None)
    else
      Ok(Some(line))
  }
}
