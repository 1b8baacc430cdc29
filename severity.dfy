/**
 * Names of the log severities libtsm reports (luatsm.c's sev2str). The
 * severities are numbered as in syslog, from 0 (fatal) to 7 (debug).
 */
module Severity {

  const Names: seq<string> :=
    ["FATAL", "ALERT", "CRITICAL", "ERROR", "WARNING", "NOTICE", "INFO", "DEBUG"]

  /** The printable name of severity `sev`; anything past the table is "UNKNOWN". */
  function Sev2Str(sev: nat): (s: string)
    ensures sev < |Names| ==> s == Names[sev]
    ensures s == "UNKNOWN" <==> sev > 7
  {
    if sev > 7 then "UNKNOWN" else Names[sev]
  }
}
