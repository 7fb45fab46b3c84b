/** The shapes of the zod schemas in services/analysis.js, as datatypes. */
module Schemas {

  /** One item of `focus_file_list`, the input of the `code_file_analysis` tool. */
  datatype FocusItem = FocusItem(focusFeature: string, codePath: string)

  /** One item of a sub-analysis's `feature_analysis` (`function` is renamed). */
  datatype FeatureLocation = FeatureLocation(featureDescription: string, functionName: string, lines: string)

  /** The parsed answer of a sub-analysis. */
  datatype SubAnalysis = SubAnalysis(featureAnalysis: seq<FeatureLocation>)

  /** One element of the list the tool returns: the focus item's path and its findings. */
  datatype ToolResult = ToolResult(codePath: string, featureAnalysis: seq<FeatureLocation>)

  datatype ImplementationLocation = ImplementationLocation(filePath: string, functionName: string, lines: string)

  datatype FeatureReport = FeatureReport(featureDescription: string, implementationLocation: seq<ImplementationLocation>)

  /** The parsed answer of the top-level analysis. */
  datatype AnalysisReport = AnalysisReport(featureAnalysis: seq<FeatureReport>, executionPlanSuggestion: string)
}
