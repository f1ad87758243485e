/** The parts of a vulnerability report the exporter reads. */
module Report {

  /** The workload series are attributed to. */
  datatype Workload = Workload(namespace: string, name: string, kind: string, container: string)

  datatype Vulnerability = Vulnerability(vulnerabilityID: string, resource: string, severity: string)

  /** A decoded report with the workload its labels and owner references name. */
  datatype VulnerabilityReport = VulnerabilityReport(workload: Workload, vulnerabilities: seq<Vulnerability>)
}
