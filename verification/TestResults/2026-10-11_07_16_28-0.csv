TestResult.DisplayName,TestResult.Outcome,TestResult.Duration,TestResult.ResourceCount,RandomSeed
GtfsGraphs.GtfsGraph.LoadTlRoute (correctness),Passed,00:00:02.6015182,2067649,1
GtfsGraphs.GtfsGraph.LoadTlRoutes (correctness),Passed,00:00:01.3378195,1294827,1
GtfsGraphs.GtfsGraph.LoadTlRoute (well-formedness),Passed,00:00:00.9486215,233635,1
GtfsGraphs.GtfsGraph.LoadTlRoutes (well-formedness),Passed,00:00:00.1998323,136517,1
